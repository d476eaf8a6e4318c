# A model of skynet: the LPeg compiler, the timer, the scheduler and the TCP sockets

skynet is an actor runtime in C with Lua and LPeg bundled. This project models four of its parts, each the
hardest of its kind in the repository, and proves what they are for.

**LPeg (`Lpeg*.dfy`).** Pattern trees have a meaning as parsing expressions (`LpegSyntax.Eval`), with
grammars, predicates, look-behind and calls. The analyses of `lpcode.c` (nullable, nofail, fixed length, first
sets, head-fail) are proved sound against that meaning, and they find all there is to find: nullable what can
be passed without consuming, nofail, if nothing in it looks back or negates, what matches the empty subject,
fixed length the length that all ways through a pattern share, and the last two what the next character
decides when it tells alternatives apart (`LpegLengths`). The code generator is given twice: as a
specification (`LpegCodegen.Gen`), and as the methods of `LpegCompiler.CompileState`, which append
instructions and patch jumps in place and are proved to produce exactly that code. The machine of `lpvm.c` is
a step function and a loop. The main theorem, `LpegCorrect.GenCorrect`, is relative to the continuation,
because the optimised code decides from the next character, using what may follow: whatever comes after the
code must do what the pattern's outcome and the follow set say. On top of it come the correction of calls,
tail calls, jump threading and the peephole pass, and last a method that compiles and matches and is proved to
give exactly what the pattern means, wherever the pattern has an outcome.

Following the jumps of generated code does not always come to an end. It does, from every address, exactly
when no grammar in the pattern has a rule that begins with tail calls leading back to it, which a look at the
tree tells (`LpegTails.Enters`, `LpegCircles.Circular`, `LpegThreads.JumpsEndExactly`); code is generated and
calls are corrected for every pattern, and the peephole pass ends for those without such a circle. The checks
of `lptree.c` that are to make matching end are modelled as they are written, and in a strict form that does
not forget `nb` in a sub-grammar; strict acceptance implies acceptance as written. Every match of a strictly
accepted pattern ends, and its code has no circle, if no rule called from a look-behind reaches back to the
rule that holds it. Outside this the source accepts patterns whose matches never end, one for each condition,
and one whose jumps are circular; it also accepts patterns that do end, again one for each condition. A
pattern is strictly accepted exactly when no used rule begins a chain of more than 250 calls before anything
is consumed, which in a grammar of at most 250 rules means that it leads into a left recursion, and no loop
has a body that can be passed without consuming (`LpegAcceptance`). On strictly accepted patterns the
analyses, and with them the code, are proved not to depend on the call depth they are modelled with, once it
is large enough.

**The timer (`Timer*.dfy`).** The timing wheel with its 256 near slots, four levels of 64 and 32-bit
arithmetic is an object over arrays. That the list of a timer depends only on its expiry and the current time
is the invariant; a tick keeps it by moving at most one list. Over whole runs, with timers added at any point,
every timer is dispatched once, in the tick it is due, after those added before it for the same tick, also
across the wrap of the clock. With the positive delays that `skynet_timeout` passes on, that is in the
`timer_update` that moves time to this tick, and between two updates nothing that waits is due.

**The scheduler (`Scheduler*.dfy`).** The ring queue, the linked global queue and the handle table are
objects. Any number of workers, senders and creators then step through the locked sections and atomic
operations of the code in any order. In every reachable state a queue has one holder at most and exactly one
while it has mail, links are clear when they are set, messages are dispatched or dropped once and in push
order, every dropped message is answered once, with an error that its source accepts if it is still registered
and has its queue, and a context is deleted once, exactly when its handle is retired and nobody refers to it.
From every reachable state an idle worker can bring the first message of any listed queue of a registered
service to be dispatched, by steps of its own once the queues of all new services are made
(`SchedulerProgress`), and it then dispatches as many messages as its weight says, or all there are
(`SchedulerTurns`). Three properties one would expect fail. A service can be sent messages as soon as its
handle is registered, which is before its queue is made: `SenderTooEarly` is such a run, and
`PushMeetsNoQueue` says exactly when a push finds no queue. The creator of a service gives its reference up
and then uses the context three times more (it marks it initialized, reports the launch and returns it):
`CreatorTooLate` is a run in which the context is deleted before all three, and `CreatorUses` says exactly
when it is. And registering a handle fails when every slot but the first is taken and the numbers tried wrap
around meanwhile, because 0 is never tried: the table is then copied although its first slot is empty.
`Register` has the exact condition, and `FirstSlotMissed` gets there with three services that stay and a
fourth that comes and goes.

**The sockets (`Socket*.dfy`).** One TCP socket from the reservation of its id, with its two write lists, the
direct write, the request pipe, the counter of sends and the close protocol. What `write`, `read` and the
event poll answer is open. The bytes on the wire are whole accepted packets and the beginning of at most one
more, lists drain in order and as far as the kernel's answers reach, the byte count is exact, SOCKET_CLOSE
comes once and no data after it; a half-closed socket is left only to be freed. What every request and every
event reports, and what it makes of the socket, is stated outright. Two properties one would expect fail, each
with a concrete run and the exact condition: the assertion in `dec_sending_ref` fails when a send began while
the id was only reserved, and a graceful close can leave a socket half closed that nothing will finish, when
only a counted send kept it open.

`dafny verify dfyconfig.toml` checks the whole project. `hide` statements keep definitions out of proofs that
do not need them. Where the code and its comments disagree the code is followed: the comment on look-behind in
`verifyrule` says that it cannot have calls, and it can, below a predicate.

## Model

| member | source | states |
|---|---|---|
| LpegSyntax.Eval | skynet/3rd/lpeg/lptree.h:16-35 | the meaning of a pattern: a success lies between the start and the end of the subject; the reference for everything below |
| LpegSyntax.MoreFuel | skynet/3rd/lpeg/lptree.h:16-35 | an outcome, once decided, does not change with more fuel, so the meaning is one |
| LpegAnalysis.NullableSound | skynet/3rd/lpeg/lpcode.c:196-230 | a pattern that is not nullable never succeeds without consuming |
| LpegAnalysis.NofailSound | skynet/3rd/lpeg/lpcode.c:196-230 | a nofail pattern never fails |
| LpegAnalysis.NofailExactly | skynet/3rd/lpeg/lpcode.c:196-230 | without look-behinds and negative predicates a pattern is nofail exactly when it matches the empty subject |
| LpegAnalysis.FixedLenSound | skynet/3rd/lpeg/lpcode.c:236-273 | a success of a pattern of fixed length n consumes exactly n characters |
| LpegLengths.FixedLenExactly | skynet/3rd/lpeg/lpcode.c:236-273 | a pattern has the fixed length n if and only if every way through it consumes n characters |
| LpegLengths.LengthFound | skynet/3rd/lpeg/lpcode.c:236-273 | n is found from some call depth on if and only if, within some number of calls, every way consumes n characters |
| LpegLengths.BehindExactly | skynet/3rd/lpeg/lptree.c:680-690 | a look-behind can be made of exactly the patterns all ways through which consume the same number of characters, at most 255 |
| LpegLengths.SuccessIsWay | skynet/3rd/lpeg/lpcode.c:236-273 | every success of a pattern without loops, predicates and calls takes one of its ways |
| LpegLengths.VariesExactly | skynet/3rd/lpeg/lpcode.c:236-273 | such a pattern has no fixed length if and only if two ways through it differ in length |
| LpegLengths.NeverVaries | skynet/3rd/lpeg/lpcode.c:264-271 | a choice whose second way is hidden by its first: no fixed length, although every success consumes one character |
| LpegLengths.VariesForReal | skynet/3rd/lpeg/lpcode.c:236-273 | where the next character tells alternatives apart, a pattern without a fixed length has successes of different length |
| LpegLengths.FirstBegins | skynet/3rd/lpeg/lpcode.c:294-370 | there every character of the first set begins a success |
| LpegLengths.HeadDecides | skynet/3rd/lpeg/lpcode.c:377-399 | there a pattern is head-fail if and only if every subject that begins with a character of its first set is matched |
| LpegAnalysis.FirstSound | skynet/3rd/lpeg/lpcode.c:294-370 | a character outside the first set, or the end of the subject when the set excludes it, makes the pattern with any continuation that keeps the follow set fail |
| LpegAnalysis.NofailFirst | skynet/3rd/lpeg/lpcode.c:294-370 | the first set of a nofail pattern is full when anything may follow |
| LpegAnalysis.HeadFailExact | skynet/3rd/lpeg/lpcode.c:377-399 | a head-fail pattern that is decided fails exactly where there is no next character or it is outside the first set |
| LpegAnalysis.HeadFailEmpty | skynet/3rd/lpeg/lpcode.c:377-399 | the first set of a head-fail pattern excludes the end of the subject |
| LpegCharset.CharsetType | skynet/3rd/lpeg/lpcode.c:41-82 | the loop over the 32 bytes of a set answers fail, any, one character or set exactly by how many members there are |
| LpegCharset.BitmapRoundTrip | skynet/3rd/lpeg/lpcode.c:573-580 | the 32 bytes stored for a set stand for that set |
| LpegMachine.Match | skynet/3rd/lpeg/lpvm.c:149-360 | the interpreter loop computes the iterated step function and stops with its final state |
| LpegMachine.YieldsBack | skynet/3rd/lpeg/lpvm.c:149-360 | a run may be extended by a step at its beginning |
| LpegMachine.YieldsUnique | skynet/3rd/lpeg/lpvm.c:149-360 | a run has one result |
| LpegCorrect.GenCorrect | skynet/3rd/lpeg/lpcode.c:919-944 | running the generated code comes to what the continuation does after the pattern's outcome, for every continuation whose first characters lie in the follow set, with every optimisation |
| LpegCorrect.SeqCorrect | skynet/3rd/lpeg/lpcode.c:899-911 | the same for a sequence, with the follow set of its first part computed from its second |
| LpegCorrect.ChoiceCorrect | skynet/3rd/lpeg/lpcode.c:677-712 | the same for a choice, by test, by disjoint first sets, or in full |
| LpegCorrect.FullChoiceCorrect | skynet/3rd/lpeg/lpcode.c:694-711 | the code with test, choice and commit tries the second alternative exactly when the first fails |
| LpegCorrect.ChoiceByTest | skynet/3rd/lpeg/lpcode.c:684-693 | a test of the next character may decide a choice when the first alternative is head-fail or the first sets are disjoint |
| LpegCorrect.RepCorrect | skynet/3rd/lpeg/lpcode.c:777-813 | the same for a repetition, also one inside an optional that ends in a partial commit |
| LpegCorrect.RepLoop | skynet/3rd/lpeg/lpcode.c:797-811 | the partial-commit loop repeats its body as long as it succeeds |
| LpegCorrect.RepByTest | skynet/3rd/lpeg/lpcode.c:785-794 | a test may decide when a repetition stops |
| LpegCorrect.NotCorrect | skynet/3rd/lpeg/lpcode.c:823-837 | the code of a negative predicate succeeds without consuming exactly when its body fails |
| LpegCorrect.AndCorrect | skynet/3rd/lpeg/lpcode.c:720-736 | the same for a positive predicate, also as a match that steps back |
| LpegCorrect.BehindCorrect | skynet/3rd/lpeg/lpcode.c:659-663 | the same for a look-behind, with its failure at the beginning of the subject |
| LpegCorrect.CallCorrect | skynet/3rd/lpeg/lpcode.c:887-891 | a call, and a call made a jump because its return is next, come to what the rule does |
| LpegCorrect.GrammarCorrect | skynet/3rd/lpeg/lpcode.c:868-884 | the code of a grammar does what its first rule means, with calls resolved to the rules |
| LpegLayout.CorrectSettles | skynet/3rd/lpeg/lpcode.c:844-861 | after correctcalls no open call is left, and each is a call or a jump exactly as what follows it says |
| LpegLayout.CorrectPlacesCalls | skynet/3rd/lpeg/lpcode.c:844-861 | each corrected call goes to the address of its rule |
| LpegLayout.GrammarRulesAt | skynet/3rd/lpeg/lpcode.c:868-884 | in corrected code every rule stands at its recorded position |
| LpegTails.GenGood | skynet/3rd/lpeg/lpcode.c:919-944 | what one meets who follows the jumps from the beginning of a pattern's code is what Enters reads off the tree, and after every call the jumps end without meeting an earlier one |
| LpegTails.CorrectTells | skynet/3rd/lpeg/lpcode.c:844-861 | correctcalls makes a call a jump exactly when a return follows it in the uncorrected code |
| LpegCircles.CircleFound | skynet/3rd/lpeg/lpcode.c:844-861 | a circle of tail calls shows when more of them are followed than there are rules |
| LpegCircles.EntriesEnd | skynet/3rd/lpeg/lpcode.c:641-645 | in the corrected code of a grammar the jumps from the rules end exactly when no rule begins with tail calls that lead back to it |
| LpegThreads.GenThreaded | skynet/3rd/lpeg/lpcode.c:641-645 | in the code of a pattern without such a circle labels stay inside and every chain of jumps ends |
| LpegThreads.GenEndless | skynet/3rd/lpeg/lpcode.c:641-645 | in the code of a pattern with one some chain of jumps never ends |
| LpegThreads.JumpsEndExactly | skynet/3rd/lpeg/lpcode.c:641-645 | finaltarget terminates from every address of finished code if and only if no grammar whose code is in it is circular |
| LpegThreads.EndlessStays | skynet/3rd/lpeg/lpcode.c:956-995 | no rewriting of the peephole pass removes a chain of jumps that never ends, so the pass does not end then |
| LpegThreads.LayeredUntangled | skynet/3rd/lpeg/lptree.c:952-1063 | a strictly accepted pattern with layered look-behinds has no circle |
| LpegThreads.LoopsAreUntangled | skynet/3rd/lpeg/lpcode.c:641-645 | the two accepted grammars whose matches never end have none either |
| LpegThreads.RuleEntryEnds | skynet/3rd/lpeg/lpcode.c:641-645 | the jumps from the entry of a rule end because its matches end; from this follows LayeredUntangled |
| LpegThreads.JumpsForEver | skynet/3rd/lpeg/lpcode.c:641-645 | an accepted grammar with look-behinds that reach each other, which is circular: jumps of its code never end |
| LpegPeephole.RewritingSound | skynet/3rd/lpeg/lpcode.c:956-995 | replacing a jump by its final target or by the instruction there keeps the result of every match |
| LpegPeephole.Simulates | skynet/3rd/lpeg/lpcode.c:956-995 | step by step the rewritten code does what the original does, up to jumps |
| LpegPeephole.RewritingKeepsSealed | skynet/3rd/lpeg/lpcode.c:956-995 | labels stay inside the code and jump chains still end, so the pass can go on |
| LpegAcceptance.LeftRecursiveExactly | skynet/3rd/lpeg/lptree.c:1002-1042 | verifyrule fails if and only if more rules than it has left can be entered one from the other before anything is consumed, and otherwise answers whether the pattern can be passed without consuming |
| LpegAcceptance.LeftLoopExactly | skynet/3rd/lpeg/lptree.c:1033-1040 | in a grammar of at most 250 rules there is such a chain of 251 calls if and only if calls made before anything is consumed lead to a rule and back to it |
| LpegAcceptance.SmallGrammarExactly | skynet/3rd/lpeg/lptree.c:1045-1053 | so a rule of such a grammar is found left recursive exactly when it leads into a left recursion |
| LpegAcceptance.NullableExactly | skynet/3rd/lpeg/lpcode.c:196-230 | a pattern is nullable if and only if it can be passed without consuming, at every call depth greater than its chains |
| LpegAcceptance.LoopsExactly | skynet/3rd/lpeg/lptree.c:952-969 | checkloops finds a loop if and only if a repetition has a body that can be passed without consuming |
| LpegAcceptance.AcceptedExactly | skynet/3rd/lpeg/lptree.c:1045-1063 | a pattern is strictly accepted if and only if no used rule of its grammars begins a chain of more than 250 calls and no loop is empty |
| LpegAcceptance.AcceptedAsWritten | skynet/3rd/lpeg/lptree.c:1002-1063 | the check as written accepts all such patterns, and only these when it never forgets nb |
| LpegGrammar.AcceptedTerminates | skynet/3rd/lpeg/lptree.c:952-1063 | every match of a strictly accepted pattern ends, when no rule called in a look-behind reaches the rule that holds it |
| LpegGrammar.Terminates | skynet/3rd/lpeg/lptree.c:952-1063 | the same for each pattern inside a grammar, with the rules that may still be entered without consuming |
| LpegGrammar.SameVerdict | skynet/3rd/lpeg/lptree.c:1002-1042 | the check as written agrees with the strict one unless it meets a sub-grammar that is not nullable while nb is set |
| LpegGrammar.StrictAccepts | skynet/3rd/lpeg/lptree.c:1002-1063 | what the strict check accepts, the check as written accepts |
| LpegGrammar.MatchesEnd | skynet/3rd/lpeg/lptree.c:952-1063 | a pattern accepted by the check as written, when it never forgot nb, is accepted strictly, and all its matches end |
| LpegGrammar.LeftRecursionMissed | skynet/3rd/lpeg/lptree.c:1039-1040 | a left-recursive grammar that verifyrule accepts and the strict check does not, and no match of which ends |
| LpegGrammar.BehindRecursionMissed | skynet/3rd/lpeg/lptree.c:1006-1012 | a look-behind that calls its own rule below a predicate: accepted by both checks, and no match ends |
| LpegGrammar.ForgetfulEnds | skynet/3rd/lpeg/lptree.c:1039-1040 | a grammar that only the check as written accepts and that matches at every position |
| LpegGrammar.UnlayeredEnds | skynet/3rd/lpeg/lptree.c:1006-1012 | a strictly accepted grammar whose look-behind reaches back and whose matches all end |
| LpegSettles.FirstSettles | skynet/3rd/lpeg/lpcode.c:294-370 | on a strictly accepted grammar first sets no longer change from some call depth on |
| LpegSettles.AnalysesSettle | skynet/3rd/lpeg/lpcode.c:196-399 | on a strictly accepted pattern none of the analyses changes from some call depth on |
| LpegSettles.CodeSettles | skynet/3rd/lpeg/lpcode.c:919-944 | so there is one code for the pattern: the one generated at every larger depth |
| LpegCompiler.CompileState.EmitPattern | skynet/3rd/lpeg/lpcode.c:919-944 | codegen appends exactly the specified code |
| LpegCompiler.CompileState.EmitChoice | skynet/3rd/lpeg/lpcode.c:677-712 | codechoice, with its jumps patched afterwards, appends exactly the specified code |
| LpegCompiler.CompileState.EmitRep | skynet/3rd/lpeg/lpcode.c:777-813 | coderep appends exactly the specified code |
| LpegCompiler.CompileState.EmitNot | skynet/3rd/lpeg/lpcode.c:823-837 | codenot appends exactly the specified code |
| LpegCompiler.CompileState.EmitAnd | skynet/3rd/lpeg/lpcode.c:720-736 | codeand appends exactly the specified code |
| LpegCompiler.CompileState.EmitGrammar | skynet/3rd/lpeg/lpcode.c:868-884 | codegrammar appends the rules with all calls corrected |
| LpegCompiler.CompileState.EmitTest | skynet/3rd/lpeg/lpcode.c:614-635 | codetestset appends a test for the set, or nothing when there is none to make |
| LpegCompiler.CompileState.FinalTarget | skynet/3rd/lpeg/lpcode.c:641-645 | the loop ends at the first instruction that is not a jump |
| LpegCompiler.CompileState.CorrectCalls | skynet/3rd/lpeg/lpcode.c:844-861 | correcting the calls in place ends for every grammar and gives the specified corrected code |
| LpegCompiler.CompileState.PeepholeAt | skynet/3rd/lpeg/lpcode.c:956-995 | one round keeps the result of every match and the shape the pass needs |
| LpegCompiler.CompileState.Peephole | skynet/3rd/lpeg/lpcode.c:956-995 | the pass keeps the result of every match |
| LpegCompiler.CompileState.Compile | skynet/3rd/lpeg/lpcode.c:1001-1010 | the finished code of a pattern without a circle gives, on every subject from every position, what the pattern means |
| LpegCompiler.GenImplements | skynet/3rd/lpeg/lpcode.c:919-944 | the code before the peephole pass implements its pattern |
| LpegCompiler.GenSealed | skynet/3rd/lpeg/lpcode.c:919-944 | the code of a pattern without a circle is fit for the peephole pass |
| LpegCompiler.ExactlyWhatItMeans | skynet/3rd/lpeg/lpvm.c:149-360 | where a pattern has an outcome the machine yields a result exactly when it is that of the pattern |
| LpegCompiler.CompileAndMatch | skynet/3rd/lpeg/lptree.c:1156-1174 | compiling a pattern without a circle and matching where it has an outcome halts and answers what the pattern means |
| LpegCompiler.CompileAccepted | skynet/3rd/lpeg/lptree.c:1156-1174 | for strictly accepted patterns with layered look-behinds this is so on every subject from every position |
| TimerWheel.PlacesStay | skynet/skynet-src/skynet_timer.c:112-132 | when time moves on, the place of every expiry stays the same except in the list that the tick moves, for all 32-bit times |
| TimerWheel.CascadeFound | skynet/skynet-src/skynet_timer.c:118-131 | the loop of timer_shift goes on exactly past levels whose digit became zero, and stops at the list that has to move |
| TimerWheel.Timer.Cascade | skynet/skynet-src/skynet_timer.c:112-132 | after a tick, the nodes that have to move are linked again and all lists are right |
| TimerWheel.LinkHolds | skynet/skynet-src/skynet_timer.c:68-86 | linking a node where its expiry and the time say keeps all lists right and in order |
| TimerWheel.ShiftHolds | skynet/skynet-src/skynet_timer.c:112-132 | taking out the list to be moved and advancing the time leaves exactly its nodes to be linked again |
| TimerWheel.DueHolds | skynet/skynet-src/skynet_timer.c:153-163 | the current near list holds exactly the timers that expire now, in order of insertion |
| TimerWheel.Timer.constructor | skynet/skynet-src/skynet_timer.c:181-202 | an empty wheel at time 0 |
| TimerWheel.Timer.AddNode | skynet/skynet-src/skynet_timer.c:68-86 | a node goes to the end of the list of its expiry and time |
| TimerWheel.Timer.Add | skynet/skynet-src/skynet_timer.c:89-99 | a new timer expires at time + delay, modulo 2^32, behind all that were added before |
| TimerWheel.Timer.MoveList | skynet/skynet-src/skynet_timer.c:102-109 | moving a list links all of its nodes anew, in order |
| TimerWheel.Timer.Shift | skynet/skynet-src/skynet_timer.c:112-132 | a tick advances the time and keeps every pending timer |
| TimerWheel.Timer.TakeDue | skynet/skynet-src/skynet_timer.c:153-163 | takes out exactly the timers that expire now, in order of insertion |
| TimerWheel.Timer.Execute | skynet/skynet-src/skynet_timer.c:153-163 | timer_execute takes out, in order, exactly what is due among the timers pending and those added while it dispatches |
| TimerWheel.Timer.Update | skynet/skynet-src/skynet_timer.c:166-178 | one timer_update with timers added meanwhile: what is dispatched before and after the tick, and nothing that waits is due when it ends |
| TimerRuns.RunsExact | skynet/skynet-src/skynet_timer.c:153-178 | in every run nothing waits too long, and for each tick the timers dispatched and waiting are those added, in order |
| TimerRuns.FiredExactlyOnce | skynet/skynet-src/skynet_timer.c:153-178 | once a tick is over, the timers due then were dispatched, each once, in the order of adding |
| TimerRuns.FiredInItsTick | skynet/skynet-src/skynet_timer.c:153-178 | every timer is dispatched in the tick it is due |
| TimerRuns.FiredInItsUpdate | skynet/skynet-src/skynet_timer.c:166-218 | with positive delays every timer is dispatched by the timer_update that moves time to its tick, after the tick |
| TimerRuns.NoneLeftOver | skynet/skynet-src/skynet_timer.c:166-218 | with positive delays nothing that waits between two updates is due, and all that was due was dispatched, once and in order |
| TimerRuns.NotFiredEarly | skynet/skynet-src/skynet_timer.c:153-178 | before its tick no timer is dispatched |
| TimerRuns.Execute | skynet/skynet-src/skynet_timer.c:68-178 | the wheel run over any sequence of actions dispatches what the unbounded clock does, across wraps |
| SchedulerQueue.MessageQueue.constructor | skynet/skynet-src/skynet_mq.c:78-96 | a new queue is empty and counts as being on the global list |
| SchedulerQueue.MessageQueue.Push | skynet/skynet-src/skynet_mq.c:190-209 | a message goes to the end, the ring growing when full, and the queue is linked exactly when its flag was clear |
| SchedulerQueue.MessageQueue.Pop | skynet/skynet-src/skynet_mq.c:138-172 | the first message comes out, or the flag is cleared; the overload length and threshold |
| SchedulerQueue.MessageQueue.Expand | skynet/skynet-src/skynet_mq.c:175-187 | a full ring is copied in order into one of twice the size |
| SchedulerQueue.MessageQueue.Length | skynet/skynet-src/skynet_mq.c:112-125 | the number of messages in the ring |
| SchedulerQueue.MessageQueue.TakeOverload | skynet/skynet-src/skynet_mq.c:128-135 | the overload length is reported once |
| SchedulerQueue.MessageQueue.MarkRelease | skynet/skynet-src/skynet_mq.c:220-228 | marks the queue, and links it exactly when its flag was clear |
| SchedulerQueue.MessageQueue.Drop | skynet/skynet-src/skynet_mq.c:231-237 | drops all that is left, in order |
| SchedulerQueue.DoubledLeast | skynet/skynet-src/skynet_mq.c:156-159 | the threshold is raised to cover the length and no further |
| SchedulerQueue.GlobalQueue.LinkClear | skynet/skynet-src/skynet_mq.c:44-75 | of all queues, the link of one is clear exactly when it is not on the list or is the last there |
| SchedulerQueue.GlobalQueue.Push | skynet/skynet-src/skynet_mq.c:44-56 | a queue that is not on the list joins at its end, through its own link; the assertion on the link holds |
| SchedulerQueue.GlobalQueue.Forget | skynet/skynet-src/skynet_mq.c:98-104 | a queue that is freed while not on the list has a clear link, as asserted |
| SchedulerQueue.GlobalQueue.Pop | skynet/skynet-src/skynet_mq.c:59-75 | the first queue leaves with its link cleared; the assertion on the tail holds |
| SchedulerHandles.HandleStorage.Register | skynet/skynet-src/skynet_handle.c:35-71 | a context gets the first number tried whose slot is free, under which none is registered, and every other lookup is unchanged; it fails exactly when all slots but the first are taken and the numbers tried pass over that one |
| SchedulerHandles.HandleStorage.Grow | skynet/skynet-src/skynet_handle.c:57-69 | a full table doubles without two contexts meeting in a slot, and has room then |
| SchedulerHandles.HandleStorage.Scan | skynet/skynet-src/skynet_handle.c:42-56 | the scan, with its wrap to 1, finds the first free slot it tries; if none, all are taken but perhaps slot 0, and that only when it is passed over |
| SchedulerHandles.FirstSlotMissed | skynet/skynet-src/skynet_handle.c:42-69 | a run of registrations that ends in a table of four slots with three services, in which none can be registered any more |
| SchedulerHandles.HandleStorage.Grab | skynet/skynet-src/skynet_handle.c:137-153 | a handle finds its context and no other |
| SchedulerHandles.HandleStorage.Retire | skynet/skynet-src/skynet_handle.c:74-110 | a retired handle finds nothing; all others are unchanged |
| SchedulerHandles.SlotOf | skynet/skynet-src/skynet_handle.c:49-56 | the harbor bits do not change the slot of a handle |
| SchedulerSafety.PutKeeps | skynet/skynet-src/skynet_server.c:126-353 | a step by one thread on one service keeps the invariant of all threads if it keeps it locally |
| SchedulerRuns.ActKeeps | skynet/skynet-src/skynet_server.c:126-353 | every step of every thread keeps the invariant |
| SchedulerRuns.KeepKeeps | skynet/skynet-src/skynet_server.c:307-314 | the grab by a worker keeps the invariant, and a context that is found is initialized and not deleted |
| SchedulerProgress.WorkerDispatches | skynet/skynet-src/skynet_server.c:299-353 | an idle worker that goes on alone comes to dispatch the first message of any listed queue of a registered service, whatever is listed before it, when every service has its queue |
| SchedulerProgress.MailIsDispatched | skynet/skynet-src/skynet_server.c:299-353 | from every state of every run with an idle thread the run can go on so that the first message of a given listed queue of a registered service is dispatched, by steps of that thread after those of creators that have a queue to make |
| SchedulerProgress.DropRound | skynet/skynet-src/skynet_mq.c:231-250 | a worker that drops a released queue drops all its messages in order, frees it and is idle then |
| SchedulerTurns.TurnEnds | skynet/skynet-src/skynet_server.c:316-352 | a worker gives a queue up after dispatching as many messages as the length it measured, halved by its weight, and at least one; or when the queue is empty |
| SchedulerTurns.HalvedIs | skynet/skynet-src/skynet_server.c:322-325 | halving by the weight is the shift: division by a power of two |
| SchedulerCalls.SendArrives | skynet/skynet-src/skynet_server.c:231-240 | a message sent to a registered context that has its queue is accepted at the end of the queue, which is on the list then if no worker holds it |
| SchedulerCalls.CreateLaunches | skynet/skynet-src/skynet_server.c:126-174 | a service whose init function succeeds is registered, initialized and listed, with one reference |
| SchedulerCalls.CreateFails | skynet/skynet-src/skynet_server.c:174-182 | a service whose init function fails is retired and deleted and its queue freed |
| SchedulerCalls.RetireDeletes | skynet/skynet-src/skynet_handle.c:74-110 | retiring a context to which nobody else refers deletes it, marks its queue and lists it |
| SchedulerTheorems.TokenExact | skynet/skynet-src/skynet_mq.c:43-75 | in every run a queue is on the list or held exactly when its flag or its release says so, and once |
| SchedulerTheorems.NeverTwoDispatchers | skynet/skynet-src/skynet_server.c:299-353 | no two workers dispatch one service, and its queue is not on the list meanwhile |
| SchedulerTheorems.MailNotForgotten | skynet/skynet-src/skynet_mq.c:190-209 | a service with mail is on the list or held by a thread |
| SchedulerTheorems.ListedOnce | skynet/skynet-src/skynet_mq.c:44-56 | no queue is on the list twice |
| SchedulerTheorems.LinkIsClear | skynet/skynet-src/skynet_mq.c:44-56 | a queue that a thread is about to link is not on the list and no other thread holds it, which is what GlobalQueue.Push needs |
| SchedulerTheorems.DeletedExactly | skynet/skynet-src/skynet_server.c:209-228 | a context is deleted exactly when its handle is retired and no thread refers to it, once |
| SchedulerTheorems.MarkedOnce | skynet/skynet-src/skynet_mq.c:220-228 | one thread at most marks a release, and the assertion there holds |
| SchedulerTheorems.QueueAlive | skynet/skynet-src/skynet_mq.c:99-104 | no thread that uses a queue finds it freed |
| SchedulerTheorems.DispatchInitialized | skynet/skynet-src/skynet_server.c:262-286 | messages are dispatched only to a context that is initialized and not deleted |
| SchedulerTheorems.Conserved | skynet/skynet-src/skynet_mq.c:138-250 | the messages accepted are those dispatched, then those dropped, then those waiting, in push order |
| SchedulerReplies.EveryDropAnswered | skynet/skynet-src/skynet_server.c:115-123 | the messages a service dropped are, in order, those answered and at most one that a thread is about to answer; all are answered once the queue is freed |
| SchedulerReplies.ReplyAccepted | skynet/skynet-src/skynet_server.c:115-123 | the reply to a dropped message is noted, and when its source is registered the error is among what the source accepts, unless the source has no queue yet |
| SchedulerReplies.SentIsAccepted | skynet/skynet-src/skynet_server.c:231-240 | a message being sent to a context that was grabbed is accepted by the time the sender goes on, unless the context has no queue yet |
| SchedulerTheorems.NothingAfterDeletion | skynet/skynet-src/skynet_server.c:231-240 | nothing is accepted after a deletion, and what was accepted or taken stays so |
| SchedulerCreation.PushMeetsNoQueue | skynet/skynet-src/skynet_server.c:155-156 | a push finds no queue exactly while the creator of the context has registered its handle and not yet made the queue |
| SchedulerCreation.SenderTooEarly | skynet/skynet-src/skynet_server.c:155-156 | a run in which a message is pushed through a context that has no queue yet |
| SchedulerCreation.CreatorUses | skynet/skynet-src/skynet_server.c:163-173 | while the creator uses the context after it gave up its reference, the context is deleted exactly when its handle is retired and no other thread refers to it |
| SchedulerCreation.CreatorTooLate | skynet/skynet-src/skynet_server.c:163-173 | a run in which a context is deleted before its creator marks it initialized, reports the launch and returns it |
| SocketBuffers.SentMore | skynet/skynet-src/socket_server.c:713-742 | writing part of the first packet keeps write integrity |
| SocketBuffers.Joined | skynet/skynet-src/socket_server.c:948-985 | a packet put behind all begun ones keeps write integrity and the order of its origin |
| SocketServer.TakenConcat | skynet/skynet-src/socket_server.c:859-917 | two lists written one after the other are written like one, with the answers left over |
| SocketServer.TakenBytes | skynet/skynet-src/socket_server.c:713-742 | what the answers take is exactly what is missing from the front of the unsent bytes afterwards |
| SocketServer.TakesFirst | skynet/skynet-src/socket_server.c:713-742 | a first answer of n bytes takes n bytes, or the first buffer if that has fewer |
| SocketServer.TakesAll | skynet/skynet-src/socket_server.c:713-742 | answers that cover every buffer leave nothing |
| SocketServer.WireGrows | skynet/skynet-src/socket_server.c:713-742 | the wire grows by the bytes the answers take, and when nothing is left the packets of the line are sent whole |
| SocketServer.Socket.Reserved | skynet/skynet-src/socket_server.c:346-371 | a reserved id with its request to open on the way |
| SocketServer.Socket.Accepted | skynet/skynet-src/socket_server.c:1573-1614 | an accepted connection that is not started |
| SocketServer.Socket.WriteDirectly | skynet/skynet-src/socket_server.c:1820-1860 | a direct write gives a packet to an idle socket; what is left waits before everything else |
| SocketServer.Socket.BeginSend | skynet/skynet-src/socket_server.c:1307-1326 | a send is counted exactly when the socket is open |
| SocketServer.Socket.SendHigh | skynet/skynet-src/socket_server.c:1804-1873 | a packet is refused, written directly or handed to the socket thread |
| SocketServer.Socket.SendLow | skynet/skynet-src/socket_server.c:1877-1894 | a low packet is refused or handed to the socket thread |
| SocketServer.Socket.Drain | skynet/skynet-src/socket_server.c:713-742 | a list is written as the kernel's answers say, in order, and the byte count follows |
| SocketServer.Socket.CloseWrite | skynet/skynet-src/socket_server.c:690-710 | a failed write shuts the write side, or all once the read side is shut |
| SocketServer.Socket.Raise | skynet/skynet-src/socket_server.c:829-843 | a begun low buffer becomes the first high one, so none can come between |
| SocketServer.Socket.SendLists | skynet/skynet-src/socket_server.c:859-917 | the low list is written only when the high one is sent; closing ends the socket only with all sent; the assertion of line 892 holds |
| SocketServer.Socket.SendBuffer | skynet/skynet-src/socket_server.c:920-945 | with the lock, exactly what the answers take leaves the line and goes on the wire; when nothing is left all packets are sent whole, a closing socket is gone, and otherwise writing is no longer watched for; without the lock nothing changes |
| SocketServer.Socket.SendSocket | skynet/skynet-src/socket_server.c:1007-1076 | a packet is dropped, or joins the end of its list, or the high one when both are empty; what is reported, and that the socket is watched for writing, exactly |
| SocketServer.Socket.WarnOfSize | skynet/skynet-src/socket_server.c:1066-1075 | a warning comes when the line is long and has doubled since the last one, gives its size in K, rounded up, and doubles the size of the next one |
| SocketServer.Socket.EndSend | skynet/skynet-src/socket_server.c:1329-1336 | the assertion holds exactly when more sends are under way than began before the socket was open |
| SocketServer.Socket.Trigger | skynet/skynet-src/socket_server.c:988-997 | the socket is watched for writing; an error is reported exactly when that fails |
| SocketServer.Socket.CloseSocket | skynet/skynet-src/socket_server.c:1128-1154 | closes at once or after sending; SOCKET_CLOSE exactly if it was not reported; the exact case in which nothing will finish it |
| SocketServer.Socket.ResumeSocket | skynet/skynet-src/socket_server.c:1174-1210 | starts an accepted connection and no closed one; reports it open, an error, or nothing, exactly |
| SocketServer.Socket.OpenSocket | skynet/skynet-src/socket_server.c:602-678 | a reserved socket becomes open, connecting or invalid, and what is reported, exactly as opening came out |
| SocketServer.Socket.ServeSend | skynet/skynet-src/socket_server.c:1372-1379 | a request to send: the packet is dropped or accepted on its list, with the report that comes of it, and the counter goes down |
| SocketServer.Socket.Command | skynet/skynet-src/socket_server.c:1340-1397 | one request from the pipe: what it reports and makes of the socket, request by request; fails exactly at the assertion of the counter |
| SocketServer.Socket.ReadEnd | skynet/skynet-src/socket_server.c:1417-1437 | the end of input closes the read side, or all when nothing can be sent, and reports it once |
| SocketServer.Socket.ForwardMessage | skynet/skynet-src/socket_server.c:1401-1460 | what is read is reported unless the read side is closed; an error is reported, the end of input closes, and the buffer is resized only for what is reported |
| SocketServer.Socket.Resize | skynet/skynet-src/socket_server.c:1452-1457 | a full read buffer doubles and one less than half used halves, never below the least |
| SocketServer.Socket.ReportConnect | skynet/skynet-src/socket_server.c:1522-1555 | the connection is reported open exactly when it came about and, with nothing to send, writing could be switched off; else an error is reported and the socket is gone |
| SocketServer.Socket.Poll | skynet/skynet-src/socket_server.c:1671-1746 | what any event reports and makes of the socket, by kind and event: what is read is reported, what the answers take of the line is on the wire, a connection is opened or given up; write integrity and the close protocol are kept, and a closing socket loses data only by a failure or a hang-up |
| SocketRuns.WireIntegrity | skynet/skynet-src/socket_server.c:713-985 | the wire carries the packets sent whole and part of the next; every accepted packet is sent or pending, once; each origin in order |
| SocketRuns.Step | skynet/skynet-src/socket_server.c:1340-1873 | every step keeps write integrity and the close protocol; a half-closed socket is left only to be freed, and a freed one stays so |
| SocketRuns.Run | skynet/skynet-src/socket_server.c:1340-1873 | any run keeps write integrity and the close protocol, and stops at an assertion only if a send began while the id was reserved |
| SocketRuns.EarlySend | skynet/skynet-src/socket_server.c:1329-1336 | a run in which the assertion of the counter fails |
| SocketRuns.ClosedTooEarly | skynet/skynet-src/socket_server.c:1128-1154 | a run that leaves a closing socket with nothing to send and nothing that would finish it |

## Left out

- LPeg captures, run-time captures, the limit and growth of the backtrack stack, and Lua tables of rule names: the tree holds resolved calls, and the machine's stack is unbounded.
- LPeg compiled code is a sequence of instructions, so its reallocation and the instruction left unused behind a replaced jump are not captured; sets in code are sets, and their 32-byte form is proved separately in `LpegCharset`.
- LpegAnalysis.NullableSound: the analyses follow calls to a depth d and answer cautiously beyond it, where the source follows them without bound; the theorems hold for every d, and `LpegSettles` proves that on strictly accepted patterns d stops to matter. On the left-recursive grammars that are accepted by mistake the source's own analyses do not return.
- LpegGrammar.AcceptedTerminates: one direction only; `ForgetfulEnds` and `UnlayeredEnds` are patterns outside it that end, `LeftRecursionMissed` and `BehindRecursionMissed` show that neither condition can be dropped. Whether a pattern ends depends on whether other patterns ever match, which cannot be decided for parsing expressions.
- LpegGrammar.Terminates: the same, inside a grammar.
- LpegGrammar.MatchesEnd: the same.
- LpegLengths.VariesForReal: one direction for patterns whose alternatives are told apart by the next character; `NeverVaries` shows that without this it is false, and `VariesExactly` is the exact statement, about ways.
- LpegAcceptance.AcceptedAsWritten: where nb is forgotten, only that patterns with the property are accepted; `LeftRecursionMissed` and `ForgetfulEnds` are accepted without it.
- LpegAcceptance.AcceptedExactly: at call depths from some bound on, which the height of the pattern gives.
- LPeg tree building, among it the re-association of sequences and choices.
- The linked lists of the timer are sequences and its shifts and masks are divisions and remainders; the monotonic clock and the number of ticks per update are not part of the model.
- Locks of all kinds: each locked section is one step. The registration of a handle and its assignment to the context are one step.
- Names of services and remote harbors. In the runs of `Scheduler` handles are never used twice; what the wrap of the 24-bit counter does to the table is in `SchedulerHandles`.
- SchedulerHandles.HandleStorage.Retire: the names bound to the handle are not modelled.
- SchedulerQueue.MessageQueue.Drop: gives the dropped messages in order; the call for each of them and the freeing of the queue are steps of `Scheduler`.
- SchedulerProgress.MailIsDispatched: a run that can go on so, not fairness of the threads; and a creator that has registered a handle has to make its queue first, because the answer to a dropped message may go to a service that has none.
- Ring queues do not overflow a C int, and contexts do not run out of sessions; profiling, logging and the monitor are left out, and so is `skynet_context_dispatchall`, which serves only a failed start.
- Sockets: UDP, listening sockets, user objects, warnings to other services, statistics, and the opaque owner of a socket; the reading flag, because read events may come at any time in the model.
- SocketServer.Socket.Command: the reuse of the slot for a later id is not modelled; after the socket is gone the counter of its id goes on being checked.
- The serializers, the packet framing, BSON, shared data tables, line information and the ciphers: independent of the parts above.
