# Verified model of the Ember scripting engine's concurrent and compiling core

This project models the parts of the Ember repository where the most state, branching or arithmetic meets, and
proves what they keep. `dafny verify dfyconfig.toml` checks all of it.

- **Work stealing.** `DequeProtocol` is the Chase-Lev deque as a state machine: one owner at `bottom`, any number of
  thieves at `top`, each operation a program counter over atomic steps, weak compare-and-swaps that may fail for no
  reason, and a power-of-two ring that grows. `Deques` is the same deque as an object for serialised callers. `PoolRuns`
  and `Pools` are the pool around it: least-loaded placement, back-pressure and the balancer.
- **The compiler.** `Pratt` is the expression parser as a function on tokens together with a printer; `PrattRoundTrip`
  proves that parsing inverts printing and emits the tree's postorder code; `Parsers` is the parser as the procedures
  that advance one shared state. `Grouping` says on the tokens which operator binds tighter, `Operators` what the code
  of each operator computes. `Machine` is a stack machine with the opcodes of the header, `Syntax` and `ExprCode`
  give expressions a meaning and prove their code correct. `Statements` gives statements a meaning and says how their
  patched code is laid out, `StatementRuns` proves that laid-out code simulates the meaning, `Emitters` is the emitter
  with its loop stack and backpatching, proved (with `Layout`) to lay code out, and `Programs` states the result for
  whole programs: the code ends, fails or runs forever exactly as the program does. `LongLoops` runs the code of loops
  that are accepted although they are too long. `Boundaries` decodes compiled programs and proves that every jump leads to
  an instruction, and out of a nest of loops where its statement says.
  `ForIncrements` covers the token patterns of `for` headers, `MisplacedSteps` what `++` and `--` do behind expressions.
- **The lexer.** `Lexers` says what is skipped and what is a token, `LexerRoundTrip` that written lexemes are read
  back, and `Scanners` is the cursor with its loops.
- **State machines of the runtime.** `BytecodeCache` is the chained hash table of compiled scripts refining a map,
  `RateLimiter` the allocation rate limit with its sliding-window bound, `Importers` nested module imports.
- **Versions and memory.** `Semver` and `SemverOrder` read, print, order and constrain package versions; `Arena` is
  the bump arena of one thread with its bit-mask alignment over 64-bit words. `Bits`, `Options` and `Texts` are shared
  helpers.

The virtual machine loop, the chunk primitives and the parser core are not part of this model. `Machine` is defined
from the opcode list of `include/ember.h` and from what the emitter requires: a conditional jump pops its condition,
storing a global leaves the value on the stack, `and` and `or` evaluate both operands, and the two backward jumps
count from different bytes. What instructions compute from their operands, which values are true and what an
undefined global gives are a parameter (`Machine.Vm`), and the theorems hold for all of them; `Operators` takes the
machine whose instructions compute what the comments of the header's list say, with the remainder left open.

Where the repository's documentation and its code differ, the code is followed. The documentation of control
structures (`ADVANCED_CONTROL_STRUCTURES_IMPLEMENTATION.md`) has `continue` in a do-while loop go on with the
condition; the code jumps to the start of the body, and so does `Statements.ExecDo`.

Some properties hold only in part of the input range, and then the range is proved exactly:

- A loop's backward jump, and the exit of a `for`, are written without a range check. Compiling succeeds if and only if
  no limit is exceeded and every checked jump reaches; the emitted bytes are then the program's code if and only if
  every loop has at most 254 bytes (`Programs.Compile`). Loops between the two bounds exist
  (`LongLoops.LongLoopsAccepted`); a round of a `while` leads back to its test if and only if it has at most 254 bytes
  (`LongLoops.RoundRuns`), and one of 255 bytes stops where the program goes on (`LongLoops.NegationLoopMisbehaves`).
- The scan that decides whether an expression statement is popped reads operand bytes too. It finds an assignment if
  and only if the expression writes somewhere or one of its constant indices or operand counts is 20 or 27 in its low
  byte (`Emitters.ScanFinds`).
- A three-token `for` increment is emitted as itself exactly when its operator is a compound assignment
  (`ForIncrements.AssignedIncrements`); whatever other token stands there becomes an addition
  (`ForIncrements.OtherOperatorsAdd`). The addition emitted for `i = n` has the
  assignment's effect if and only if adding `n` to the variable's value gives `n`, with numbers if and only if the
  variable is zero (`ForIncrements.PlainAssignmentAdds`, `ForIncrements.PlainAssignmentFromZero`).
- A constraint `n.x` accepts if and only if the major version is `n` and the minor version is zero; `n.m.x` accepts what
  it should (`SemverOrder.WildcardPinsMinor`, `SemverOrder.WildcardPatches`).
- A `++` or `--` behind an expression calls an empty rule if and only if the token before it is not a name that is read
  (`MisplacedSteps.StepBehind`).
- Scanning a token reads past the end of the source if and only if a quoted string of an interpolation ends the source
  with a backslash that takes the terminator along (`Scanners.Scanner.ScanToken`, with `Lexers.Overruns`); such sources
  exist (`Lexers.OverrunningSources`).
- Aligning a size gives the least multiple not below it up to the last multiple in the address space, and zero beyond
  (`Arena.AlignExact`); the bump allocator's fast path is right for exactly the sizes that leave a cache line below the
  end of the address space and grants without room otherwise (`Arena.BumpExact`, `Arena.ThreadArena.AllocFast`); an
  aligned range stays inside its allocation exactly when size and alignment do not overflow together
  (`Arena.AlignedInside`).
- A full bytecode cache refuses to refresh a script it already holds (`BytecodeCache.FullNeverRefreshes`).

## Model

| member | source | states |
|---|---|---|
| DequeProtocol.GrowKeepsWindow | experimental/vm_pools/work_stealing_pool.c:419-453 | growing the ring moves every live index's task to that index's slot of the new ring |
| DequeProtocol.LiveSlotsDistinct | experimental/vm_pools/work_stealing_pool.c:360-364 | no two live indices share a slot, since the window is shorter than the ring |
| DequeProtocol.StepRefinesDeque | experimental/vm_pools/work_stealing_pool.c:456-560 | every atomic step of the owner or a thief is a stutter or one legal operation of a sequential deque, keeps the pointer and program-counter invariant, and never lowers `top` |
| DequeProtocol.StepKeepsInv | experimental/vm_pools/work_stealing_pool.c:456-560 | every step keeps: pushed tasks are exactly those returned, those in the window and the one a pop has reserved |
| DequeProtocol.RunKeepsInv | experimental/vm_pools/work_stealing_pool.c:456-560 | that invariant holds in every state of every interleaving of one owner and any number of thieves |
| DequeProtocol.RunRefinesDeque | experimental/vm_pools/work_stealing_pool.c:480-559 | every interleaving is a history of a sequential double-ended queue, in which pushes append the tasks they were given and pops and steals return the tasks taken from the two ends |
| DequeProtocol.NoTaskReturnedTwice | experimental/vm_pools/work_stealing_pool.c:489-560 | from an empty deque no run returns a task more often than it was pushed |
| DequeProtocol.NothingLost | experimental/vm_pools/work_stealing_pool.c:489-560 | with the owner idle and the window empty, everything pushed has been returned |
| DequeProtocol.StaleThiefFails | experimental/vm_pools/work_stealing_pool.c:539-559 | a thief whose slot was overwritten, or is shared by another live index, always fails its compare-and-swap |
| DequeProtocol.PopFindsEmpty | experimental/vm_pools/work_stealing_pool.c:499-527 | a pop gives up without a compare-and-swap exactly on an empty deque |
| DequeProtocol.PopLosesRace | experimental/vm_pools/work_stealing_pool.c:508-520 | a pop whose compare-and-swap fails without being spurious lost its last task to a thief |
| DequeProtocol.StealFindsEmpty | experimental/vm_pools/work_stealing_pool.c:539-546 | a steal gives up early only when nothing is left or a pop contends for the last task |
| DequeProtocol.PushRefusedOnlyWhenFull | experimental/vm_pools/work_stealing_pool.c:463-478 | a push is refused exactly when the window as last seen fills a ring that may not double |
| DequeProtocol.PopSucceeds | experimental/vm_pools/work_stealing_pool.c:489-530 | from every idle state of the protocol an undisturbed pop ends, returning the newest task of any non-empty window and leaving an empty one as it was |
| DequeProtocol.PushSucceeds | experimental/vm_pools/work_stealing_pool.c:456-486 | an undisturbed push ends with its task appended exactly when the ring has room or may double, and otherwise changes nothing |
| DequeProtocol.StealSucceeds | experimental/vm_pools/work_stealing_pool.c:532-560 | an undisturbed thief that finds `top` below `bottom` takes the oldest task, whatever owner and other thieves are in the middle of; otherwise it changes nothing |
| Deques.Deque.constructor | experimental/vm_pools/work_stealing_pool.c:355-397 | the ring gets the least power of two at or above the wanted capacity, and is empty |
| Deques.Deque.Resize | experimental/vm_pools/work_stealing_pool.c:419-453 | growing keeps the contents and is refused exactly outside the capacity range |
| Deques.Deque.PushBottom | experimental/vm_pools/work_stealing_pool.c:456-486 | appends, and is refused exactly when full at the limit, changing nothing |
| Deques.Deque.PopBottom | experimental/vm_pools/work_stealing_pool.c:489-530 | removes the last task, failing exactly when empty or when a spurious failure meets the last task |
| Deques.Deque.StealTop | experimental/vm_pools/work_stealing_pool.c:532-560 | removes the first task, failing exactly when empty or spuriously |
| Deques.Deque.Size | experimental/vm_pools/work_stealing_pool.c:562-571 | is the number of tasks held |
| PoolRuns.LeastLoadedIsLeast | experimental/vm_pools/work_stealing_pool.c:1003-1040 | the placement scan picks the first worker of least load among those not terminating |
| PoolRuns.RunConserves | experimental/vm_pools/work_stealing_pool.c:1061-1109 | over every run of submits, pops, steals and rebalances the pending tasks stay within the limit and the books of tasks balance |
| Pools.Pool.FindTarget | experimental/vm_pools/work_stealing_pool.c:998-1040 | the scan returns a worker that does not terminate, if there is one, and that comes before every other such worker by queue length and score: shorter queues first at equal scores, one more task outweighing any score difference below 1000, the preferred node at equal queues, and then the lower number |
| Pools.Pool.TargetIsBest | experimental/vm_pools/work_stealing_pool.c:1003-1040 | the target of a task is placed on before every worker that does not terminate, stated on queue lengths, scores and nodes |
| Pools.Pool.Distribute | experimental/vm_pools/work_stealing_pool.c:998-1059 | the task goes to the target's queue, whose score rises by 100, or nowhere exactly when there is no worker or its ring is full at the limit |
| Pools.Pool.Submit | experimental/vm_pools/work_stealing_pool.c:1061-1109 | accepted exactly when running, below the limit, not shed and with room; then in exactly one queue, whose worker's score rises by 100, otherwise in none and no score changes |
| Pools.Pool.ShedsLinearly | experimental/vm_pools/work_stealing_pool.c:1077-1092 | nothing is shed below the high-water mark or up to 80% of the limit; above, what is shed at one fill level is shed at every higher one, in a share that rises linearly to everything at the limit |
| Pools.Pool.PopFrom | experimental/vm_pools/work_stealing_pool.c:604 | a worker takes the last task of its queue, and no other queue changes |
| Pools.Pool.StealFrom | experimental/vm_pools/work_stealing_pool.c:711 | a thief takes the first task of a queue, and no other queue changes |
| Pools.Pool.UpdateScores | experimental/vm_pools/work_stealing_pool.c:1115-1131 | scores decay to 95 percent plus 50 per queued task, and no queue changes |
| Pools.Pool.PutBack | experimental/vm_pools/work_stealing_pool.c:1228-1236 | returning a refused task to the global queue it was popped from always succeeds |
| Pools.Pool.MoveOne | experimental/vm_pools/work_stealing_pool.c:1224-1237 | one round moves the last global task to a worker or leaves every queue exactly as it was |
| Pools.Pool.LoadBalance | experimental/vm_pools/work_stealing_pool.c:1210-1240 | terminates, only moves tasks from the global queue to workers, keeps the multiset of all tasks, and stops drained or refused; nothing happens within the interval, measured with unsigned wrap-around |
| Pools.Pool.PendingTasks | experimental/vm_pools/work_stealing_pool.c:1246-1258 | is the number of tasks over the global queue and all workers |
| PrattRoundTrip.PrintParses | src/frontend/parser/expressions.c:494-521 | parsing a tree printed at a level, at any precedence up to it, continues the infix loop exactly behind the tree with the tree's code emitted |
| PrattRoundTrip.GenAppends | src/frontend/parser/expressions.c:16-442 | the emitted chunk is the tree's postorder bytes and constants appended to what was there |
| PrattRoundTrip.ExpressionReadsPrint | src/frontend/parser/expressions.c:494-572 | `expression` on a printed tree before a token that cannot continue it consumes exactly its tokens, reports no error and emits its postorder code; which tree a text is, is said on its tokens in `Grouping` |
| PrattRoundTrip.GroupsLeft | src/frontend/parser/expressions.c:268-327 | two operators of one precedence group to the left without parentheses |
| Grouping.TighterFirst | src/frontend/parser/expressions.c:268-327 | for any numbers or names and any two of the operators, the one of the tighter level (factor, term, comparison, equality, and, or) takes its operands first on either side: the tokens emit the code of that tree |
| Grouping.EqualsLeft | src/frontend/parser/expressions.c:268-327 | two operators of which neither is tighter emit the code grouped to the left |
| Grouping.ParenthesesFirst | src/frontend/parser/expressions.c:394-397 | parentheses around the looser operator override the levels, on either side |
| Grouping.SignsFirst | src/frontend/parser/expressions.c:244-327 | a minus sign or `!` takes only the operand behind it, before and behind every binary operator |
| Grouping.AssignmentLast | src/frontend/parser/expressions.c:113-150 | `=` and compound assignments take the whole operator expression behind them and group to the right |
| Grouping.BracketsFirst | src/frontend/parser/expressions.c:527-572 | an index belongs to the operand before it, behind every binary operator and a minus sign |
| MisplacedSteps.StepBehind | src/frontend/parser/expressions.c:516-534 | `++` or `--` behind a printed tree calls the empty infix rule exactly when the token before it is not a name that is read |
| MisplacedSteps.NumberStepped | src/frontend/parser/expressions.c:516-534 | a number followed by `++` calls the empty infix rule |
| Parsers.Parser.ParsePrecedence | src/frontend/parser/expressions.c:494-521 | the loop of infix rules computes the parse function and terminates on the remaining tokens |
| Parsers.Parser.PrefixRule | src/frontend/parser/expressions.c:527-572 | dispatches the prefix column of the rules table as the parse function does |
| Parsers.Parser.InfixRule | src/frontend/parser/expressions.c:527-572 | dispatches the infix column of the rules table as the parse function does |
| Parsers.Parser.VariableRule | src/frontend/parser/expressions.c:102-226 | names: assignment, compound assignment, steps, named calls and reads |
| Parsers.Parser.PrefixStepRule | src/frontend/parser/expressions.c:329-391 | `++x` and `--x`, with the error when no name follows |
| Parsers.Parser.ParseArguments | src/frontend/parser/expressions.c:203-212 | the argument loop counts and parses the comma-separated expressions |
| Parsers.Parser.ArrayRule | src/frontend/parser/expressions.c:399-427 | array literals, skipping newlines where the source does |
| ExprCode.EvalRuns | src/frontend/parser/expressions.c:102-442 | the code of every expression, from any stack and globals, pushes exactly its value, keeps the stack below and makes the same updates, or stops where the expression fails; what each operator computes is said in `Operators` |
| ExprCode.CompoundRuns | src/frontend/parser/expressions.c:119-154 | `x op= e` reads `x` before evaluating `e` |
| ExprCode.PostStepRuns | src/frontend/parser/expressions.c:155-200 | `x++` and `x--` leave the old value |
| ExprCode.PreStepRuns | src/frontend/parser/expressions.c:329-391 | `++x` and `--x` leave the new value |
| Operators.HeaderNumbers | include/ember.h:91-127 | the opcodes are at their places in the header's list |
| Operators.Arithmetic | src/frontend/parser/expressions.c:295-301 | for all numbers the code emitted for `+ - * / %` leaves the sum, difference, product, quotient and remainder on a machine that takes opcodes as the header numbers them |
| Operators.Comparing | src/frontend/parser/expressions.c:295-309 | for all numbers the code emitted for the six comparison tokens leaves their truth |
| Operators.Logic | src/frontend/parser/expressions.c:311-327 | in both spellings the code emitted for the logical operators leaves conjunction, disjunction and negation of two variables |
| Operators.Literals | src/frontend/parser/expressions.c:16-266 | a minus sign negates; numbers, strings and truth values leave themselves |
| Operators.Assignments | src/frontend/parser/expressions.c:113-150 | plain and compound assignment tokens store the value computed from the old one in that variable only, and leave it |
| Operators.Steps | src/frontend/parser/expressions.c:151-391 | `x++` and `x--` leave the old number, `++x` and `--x` the new one, and store the new one in that variable only |
| StatementRuns.StmtRuns | src/frontend/parser/statements.c:132-626 | laid-out code of every statement simulates its meaning from any stack, restores the stack, follows `break` and `continue`, stops where it fails and keeps running where it does not end |
| StatementRuns.LoopRuns | src/frontend/parser/statements.c:202-264 | the same for the loop with optional test and step that `while` and `for` share |
| StatementRuns.DoRuns | src/frontend/parser/statements.c:132-200 | the same for do-while, whose `continue` starts the body again |
| Layout.LoopJumps | src/frontend/parser/statements.c:242-258 | in the code of a loop, wherever it stands, every `break` of its body leads just past it, every `continue` forwards to the step as a rewritten jump or back to the test; Boundaries.JumpsLeadOut says it of whole nests |
| Layout.DoJumps | src/frontend/parser/statements.c:178-194 | the same for do-while, whose `continue` leads back to the body |
| Layout.Relaid | src/frontend/parser/statements.c:582-620 | patching the own jumps of code gives the same code with the new targets and touches nothing else |
| Layout.BodyCloses | src/frontend/parser/statements.c:582-620 | after the break patches and the continue patches an open loop body is closed |
| Layout.FitsIfLaid | src/frontend/parser/statements.c:229-232 | bytes can be the code of a statement only if each of its loops has at most 254 bytes |
| Layout.FittingReaches | src/frontend/parser/statements.c:234-257 | in loops of at most 254 bytes every checked jump reaches |
| Emitters.Emitter.Statement | src/frontend/parser/statements.c:706-753 | without error the statement's code and constants are appended, its own jumps are pending in the innermost loop, and nothing before changes; an error is reported exactly when a limit is exceeded or a checked jump does not reach |
| Emitters.Emitter.ExpressionStatement | src/frontend/parser/statements.c:848-865 | the value is popped exactly when one of the two opcodes occurs among the emitted bytes |
| Emitters.UpdatesArePopped | src/frontend/parser/statements.c:852-864 | every expression that writes, itself or deep inside, is popped |
| Emitters.ScanFinds | src/frontend/parser/statements.c:854-859 | the scan finds an assignment exactly when the expression writes somewhere or an operand byte equals one of the two opcodes |
| Emitters.ReadsPopped | src/frontend/parser/statements.c:854-859 | a variable read is popped exactly when the low byte of its constant index is 20 or 27 |
| Emitters.Emitter.LoopBody | src/frontend/parser/statements.c:99-130 | a body without braces is one expression whose value is popped |
| Emitters.Emitter.IfStatement | src/frontend/parser/statements.c:266-347 | both jumps are patched to the else-branch and to the end, with errors exactly beyond 255 bytes |
| Emitters.Emitter.WhileStatement | src/frontend/parser/statements.c:202-264 | the patched loop is laid out when it fits and the loop stack is restored; an error comes exactly from the limits, the body, the exit beyond 255 bytes or a `continue` out of reach; the backward operand is the low byte of the length plus one |
| Emitters.Emitter.DoWhileStatement | src/frontend/parser/statements.c:132-200 | the same for do-while, whose exit always reaches |
| Emitters.Emitter.ForStatement | src/frontend/parser/statements.c:393-626 | initializer, test, body and increment are laid out when the loop fits; the exit is not checked, only every `continue`, forwards to the increment or back without one |
| Emitters.Emitter.EmitIncrement | src/frontend/parser/statements.c:12-97 | the direct increment code is the code of a compound assignment, popped |
| Emitters.Emitter.BreakStatement | src/frontend/parser/statements.c:349-369 | an open jump is emitted and recorded; an error outside loops and beyond 16 |
| Emitters.Emitter.ContinueStatement | src/frontend/parser/statements.c:371-391 | an open jump is emitted and recorded; an error outside loops and beyond 16 |
| Emitters.Emitter.PatchBreaks | src/frontend/parser/statements.c:242-246 | every recorded operand gets the distance to the end, nothing else changes |
| Emitters.Emitter.PatchContinuesBack | src/frontend/parser/statements.c:248-258 | every recorded operand gets the distance back; an error exactly when one is out of reach |
| Emitters.Emitter.PatchContinuesForward | src/frontend/parser/statements.c:598-611 | every recorded instruction becomes a jump forwards; an error exactly when one is out of reach |
| Programs.Compile | src/frontend/parser/statements.c:132-626 | every program compiles exactly when it is within the limits and its checked jumps reach; compiled bytes are its code exactly when its loops fit, and then, when counts and constant indices fit a byte, running them on any machine from any world ends, fails or runs forever as the program does |
| Statements.Limits | src/frontend/parser/statements.c:132-626 | a program is within the limits exactly when loops nest at most 8 deep, each has at most 16 own breaks and 16 own continues, none stands outside a loop and the branches of every `if` can be jumped over |
| Programs.RunIsMeaning | src/frontend/parser/statements.c:132-626 | the code of a program runs as the program means, on every machine and from every world |
| LongLoops.LongLoopsAccepted | src/frontend/parser/statements.c:229-240 | `while` loops of 255 to 259 bytes, and `for` and do-while loops of any greater length, compile without error although they do not fit |
| LongLoops.RoundRuns | src/frontend/parser/statements.c:229-232 | after a round of a compiled `while` of any length the machine is at the last multiple of 256 up to the length plus one, which is the start exactly for at most 254 bytes |
| LongLoops.LongLoopMisbehaves | src/frontend/parser/statements.c:229-232 | a `while` whose operand wraps to zero does not run as the program means once its body has run, unless the program fails |
| LongLoops.NegationLoopMisbehaves | src/frontend/parser/statements.c:229-232 | a 255-byte `while` that ends after one round, on whose bytes the machine stops without reaching their end |
| Programs.EndsAsMeant | src/frontend/parser/statements.c:132-626 | the machine reaches the end of the code with given globals exactly when the program ends with them |
| Programs.FailsAsMeant | src/frontend/parser/statements.c:132-626 | the machine stops before the end exactly when the program fails |
| Programs.DivergesAsMeant | src/frontend/parser/statements.c:132-626 | the machine runs forever exactly when the program does |
| Boundaries.JumpsLand | src/frontend/parser/statements.c:132-626 | in every compiled program every jump instruction leads to the start of an instruction or to the end of the code |
| Boundaries.JumpsLeadOut | src/frontend/parser/statements.c:178-258 | in any nest every `break` is an instruction leading just past its innermost loop, every `continue` one leading to the test, the body of a do-while or, as a rewritten jump, the step |
| Boundaries.JumpsAreNamed | src/frontend/parser/statements.c:349-391 | every BREAK and CONTINUE instruction of a compiled program comes from a statement of that name |
| Boundaries.ExprStraight | src/frontend/parser/expressions.c:16-442 | the code of an expression is whole instructions and none of them is a jump |
| ForIncrements.StepsMeanSteps | src/frontend/parser/statements.c:471-488 | `i++`, `++i`, `i--` and `--i` are emitted as code with their effect |
| ForIncrements.AssignedIncrements | src/frontend/parser/statements.c:489-498 | a three-token assignment is emitted as itself exactly when its operator is a compound one |
| ForIncrements.OtherOperatorsAdd | src/frontend/parser/statements.c:72-91 | three tokens from a name to a number are emitted as the compound assignment of the middle token, or as an addition for every other token |
| ForIncrements.PlainAssignmentAdds | src/frontend/parser/statements.c:87-91 | `i = n` in the header is emitted as an addition, which has its effect exactly when adding `n` to the value of `i` gives `n` and changes nothing else |
| ForIncrements.PlainAssignmentFromZero | src/frontend/parser/statements.c:87-91 | in every machine that adds numbers that is exactly when `i` is zero |
| Lexers.SkipsExactly | src/frontend/lexer/lexer.c:31-63 | skipped text is blanks and at most one comment to the end of its line, and what follows cannot be skipped |
| Lexers.KeywordsFound | src/frontend/lexer/lexer.c:159-331 | the switch on the first letter finds a keyword exactly for its text |
| LexerRoundTrip.KeywordsRead | src/frontend/lexer/lexer.c:159-331 | each of the 35 keywords, written out, is scanned as the token named after it |
| LexerRoundTrip.SymbolsRead | src/frontend/lexer/lexer.c:349-434 | each of the 33 symbols, written out, is scanned as its token |
| LexerRoundTrip.BlankSkipped | src/frontend/lexer/lexer.c:31-39 | a blank, tab or carriage return before a token changes nothing |
| LexerRoundTrip.CommentSkipped | src/frontend/lexer/lexer.c:40-58 | a `#` or `//` comment changes nothing up to the end of its line or of the source |
| Lexers.Scan | src/frontend/lexer/lexer.c:338-437 | every token except the end is a non-empty lexeme behind the cursor; the end is reported exactly at the end |
| Lexers.TokensTile | src/frontend/lexer/lexer.c:338-437 | skipped text and lexemes tile the source |
| Lexers.OverrunningSources | src/frontend/lexer/lexer.c:121-131 | a string that opens an interpolation and in it any quoted text before a final backslash overruns the source |
| Lexers.OverrunsAtBackslash | src/frontend/lexer/lexer.c:127-130 | only a source that ends in a backslash can be read past its end |
| LexerRoundTrip.RenderedScansBack | src/frontend/lexer/lexer.c:85-157 | scanning any well-formed lexemes, interpolated strings among them, written with single spaces returns their kinds and texts and then the end |
| LexerRoundTrip.NumberScanned | src/frontend/lexer/lexer.c:85-97 | digits, or digits with a point and digits, are one number |
| LexerRoundTrip.StringScanned | src/frontend/lexer/lexer.c:99-157 | a quoted text without quote and `${` is one plain string |
| LexerRoundTrip.InterpolatedScanned | src/frontend/lexer/lexer.c:99-157 | plain text around any interpolations with matching braces, in which quoted texts may hold braces, escapes and quotes, is one token that ends at its closing quote; it is an interpolated string exactly when there is an interpolation |
| LexerRoundTrip.SymbolScanned | src/frontend/lexer/lexer.c:349-434 | each symbol of one or two characters is read whole |
| Scanners.Scanner.ScanToken | src/frontend/lexer/lexer.c:338-437 | scanning leaves the source exactly when the token overruns it; otherwise the cursor's loops compute the token function |
| Scanners.Scanner.SkipWhitespace | src/frontend/lexer/lexer.c:31-63 | moves the cursor over exactly the skippable text |
| Scanners.Scanner.StringToken | src/frontend/lexer/lexer.c:99-157 | strings with nested interpolations, an error at the end of the source, and exactly when they overrun it |
| Scanners.Scanner.SkipInterpolation | src/frontend/lexer/lexer.c:121-141 | counts braces and skips quoted strings inside an interpolation, and exactly when one overruns the source |
| BytecodeCache.HashString | experimental/vm_pools/concurrent_vm_pool.c:46-55 | the loop computes djb2 over 32-bit words with signed characters |
| BytecodeCache.ReplacesIn | experimental/vm_pools/concurrent_vm_pool.c:185-216 | replacing an entry's script in its bucket updates the map there and nowhere else |
| BytecodeCache.InsertsIn | experimental/vm_pools/concurrent_vm_pool.c:247-250 | a new entry at its bucket's head adds its path to the map, the number of entries growing by one |
| BytecodeCache.RemovesFrom | experimental/vm_pools/concurrent_vm_pool.c:296-306 | splicing an entry out removes its path from the map, the number of entries falling by one |
| BytecodeCache.NeverAboveLimit | experimental/vm_pools/concurrent_vm_pool.c:176-181 | no run of operations exceeds the limit |
| BytecodeCache.StaysCached | experimental/vm_pools/concurrent_vm_pool.c:161-340 | what is cached stays, unchanged, until its path is stored or invalidated or the cache cleared |
| BytecodeCache.LastStoreHolds | experimental/vm_pools/concurrent_vm_pool.c:161-254 | over every run a path holds what was last stored for it, also when it was cached before, if that store had room |
| BytecodeCache.GoneUntilStored | experimental/vm_pools/concurrent_vm_pool.c:285-340 | over every run an invalidated or cleared path is gone until it is stored again |
| BytecodeCache.FullNeverRefreshes | experimental/vm_pools/concurrent_vm_pool.c:176-181 | a full cache ignores every store, even of a script it holds |
| BytecodeCache.Cache.Store | experimental/vm_pools/concurrent_vm_pool.c:161-254 | after an accepted store the path holds the new script, whether or not it was cached, and every other path what it held; refused with -1, changing nothing, exactly for empty code or a full cache; a disabled cache accepts and ignores it |
| BytecodeCache.Cache.Find | experimental/vm_pools/concurrent_vm_pool.c:185-218 | walking the bucket finds the entry exactly when the path is cached |
| BytecodeCache.Cache.Lookup | experimental/vm_pools/concurrent_vm_pool.c:256-283 | returns the cached script's entry exactly when there is one and counts the hit or the miss |
| BytecodeCache.Cache.Invalidate | experimental/vm_pools/concurrent_vm_pool.c:285-314 | removes exactly the path from the map |
| BytecodeCache.Cache.Clear | experimental/vm_pools/concurrent_vm_pool.c:316-340 | empties the map |
| RateLimiter.Limiter.Check | src/api.c:140-156 | one check is one step of the limiter |
| RateLimiter.SpanBound | src/api.c:140-156 | with a clock that does not go back, any half-open span one window long has at most twice the maximum of grants |
| RateLimiter.BetweenResets | src/api.c:143-155 | between resets at most the maximum is granted, whatever the clock does |
| RateLimiter.CheckExact | src/api.c:140-156 | with a clock that has not gone back, a check after the window is granted and starts the count anew whatever it was; before, it is granted and counted exactly below the maximum |
| RateLimiter.WindowServed | src/api.c:140-156 | a fresh window grants as many checks as the maximum allows, and no more |
| RateLimiter.BoundReached | src/api.c:140-156 | twice the maximum is reached, so the bound is exact |
| RateLimiter.BackwardsResets | src/api.c:144-147 | a clock behind the last reset restarts the window through unsigned wrap-around |
| Importers.Importer.ImportModule | src/api.c:368-518 | terminates for every import graph and computes `ImportOf`; a module neither loaded nor being loaded, with fewer than 64 entries, resolving and readable, is started and its imports are run in order; the result is true exactly when it then succeeds with their outcomes; one that does not resolve gives false and changes nothing; names stay unique, loaded modules stay loaded and are not run again |
| Importers.Importer.Load | src/api.c:446-517 | the entry is marked while its source runs and is loaded or unloaded afterwards, exactly by whether the source succeeds with its imports' outcomes |
| Importers.Importer.Evaluate | src/frontend/parser/statements.c:628-704 | the imports are run in order, each in the table the one before left; those reported as loaded are packages and loaded when the source ends; the modules being loaded are as before |
| Importers.HealthyWorldLoads | src/api.c:368-518 | in every acyclic world of at most 64 names that resolve, are readable and packaged and succeed with their imports, importing one into an empty table returns true and everything reachable is loaded |
| Importers.LoadsOne | src/api.c:368-518 | the same in the middle of other imports, from every table in which the modules being loaded come before the name |
| Importers.SettledBusy | src/api.c:446-517 | an import that has returned leaves as many modules being loaded as before |
| Semver.ParseSemver | src/runtime/package/package.c:480-520 | cutting a copy at `+` and then at `-` computes the parse function |
| Semver.ParsePrint | src/runtime/package/package.c:480-520 | reading undoes printing for all five parts, with `-` in pre-release and `-` or `+` in build |
| Semver.PartsCut | src/runtime/package/package.c:480-520 | pre-release and build are read up to 31 characters |
| Semver.LongPreRelease | src/runtime/package/package.c:480-520 | a pre-release of more than 31 characters is cut there |
| Semver.LatestRead | src/runtime/package/package.c:487-493 | `latest` is read as version 999.999.999 |
| Semver.NumberRead | src/runtime/package/package.c:516 | a decimal number is read back where it stands |
| SemverOrder.Opposite | src/runtime/package/package.c:628-672 | comparing the other way round gives the opposite |
| SemverOrder.Transitive | src/runtime/package/package.c:628-672 | precedence is transitive, strictly unless both steps are equal |
| SemverOrder.CompareIsParsed | src/runtime/package/package.c:631-634 | the shortcut for equal texts agrees with comparing the versions |
| SemverOrder.Precedence | src/runtime/package/package.c:641-671 | order by numbers, pre-release below release, build ignored, equal exactly when all else agrees |
| SemverOrder.PreReleases | src/runtime/package/package.c:628-672 | of two versions that differ in the pre-release only, the one whose text has the later first differing character, or extends the other's, is higher |
| SemverOrder.CaretInterval | src/runtime/package/package.c:542-548 | on core versions a caret accepts exactly from its version up to the next major one |
| SemverOrder.TildeInterval | src/runtime/package/package.c:550-556 | on core versions a tilde accepts exactly from its version up to the next minor one |
| SemverOrder.TildeImpliesCaret | src/runtime/package/package.c:542-556 | what a tilde accepts a caret accepts |
| SemverOrder.Comparisons | src/runtime/package/package.c:558-580 | for any two texts each comparison constraint accepts exactly what is a version and compares so with a bound that is one (and its own text) |
| SemverOrder.BelowIsNotAtLeast | src/runtime/package/package.c:558-580 | on core versions below is the complement of at least, and cuts where the numbers say |
| SemverOrder.BlankBehindSign | src/runtime/package/package.c:558-580 | the four comparison constraints mean the same with blanks behind their sign |
| SemverOrder.AlwaysSatisfied | src/runtime/package/package.c:528-535 | `*` and `latest` accept every text, and every text accepts itself |
| SemverOrder.BareVersion | src/runtime/package/package.c:617-621 | a core version as constraint accepts exactly the versions with its three numbers, whatever pre-release and build |
| SemverOrder.WildcardPinsMinor | src/runtime/package/package.c:583-612 | for every `n`, `n.x` accepts exactly the versions `n.0` with any patch |
| SemverOrder.WildcardPatches | src/runtime/package/package.c:583-612 | for every `n` and `m`, `n.m.x` accepts exactly the versions `n.m` with any patch |
| Bits.AndClearLow | experimental/memory/numa_arena_allocator.c:251-253 | clearing the low bits of a word subtracts the remainder by a power of two |
| Bits.AndMaskIsMod | experimental/vm_pools/work_stealing_pool.c:480 | masking an index with capacity minus one is its remainder |
| Bits.Pow2Test | experimental/memory/numa_arena_allocator.c:1144-1147 | the bit test recognises exactly the powers of two |
| Arena.AlignExact | experimental/memory/numa_arena_allocator.c:251-253 | the least multiple not below the size up to the last multiple in a word, zero beyond |
| Arena.BlockHolds | experimental/memory/numa_arena_allocator.c:416-426 | a block holds the size asked for in whole pages, or its size is zero |
| Arena.BumpExact | experimental/memory/numa_arena_allocator.c:933-942 | the fast path grants exactly when the range fits, for exactly the sizes that do not wrap |
| Arena.ThreadArena.constructor | experimental/memory/numa_arena_allocator.c:898-924 | an arena starts with one block and nothing granted |
| Arena.ThreadArena.AllocFast | experimental/memory/numa_arena_allocator.c:927-984 | each allocation that leaves a cache line below the end of the address space is a cache-aligned range inside one block, at least as long as asked for and apart from all earlier ones; a larger one gets an address without that room |
| Arena.ThreadArena.NewBlock | experimental/memory/numa_arena_allocator.c:955-983 | the slow path takes the range from the front of a block of its own |
| Arena.AlignedInside | experimental/memory/numa_arena_allocator.c:1149-1157 | the aligned range lies inside the underlying allocation exactly when the padded size does not wrap |
| Arena.AllocAligned | experimental/memory/numa_arena_allocator.c:1139-1161 | nothing exactly for a zero size, an alignment that is no power of two, or a failed allocation |

## Left out

- Relaxed memory: the deque's atomic operations are sequentially consistent steps, and indices are unbounded. A thief's read of the ring and its slot is one step, and so is growing the ring.
- `work_stealing_pool.h`, `concurrent_vm_pool.h` and the parser and chunk core are not part of this model; the deque's default and largest capacities are parameters.
- The pool treats operations on one deque as serialised; worker threads, the order in which thieves choose victims, resizing of the worker set, statistics and the clock's units are not modelled. Load scores are unbounded numbers.
- Pools.Pool.LoadBalance: terminates for finitely many spurious failures of the weak compare-and-swap, because endless spurious failures would keep the original's loop running.
- Pools.Pool.Submit: does not model allocation of the task or wake-up of workers.
- Expressions: hash map literals, `this`, `super`, `new`, property access, `await` and `yield` have no tokens in the model. The printer does not produce calls of anything but a name, whose code the infix rule orders differently. Tokens `++` and `--` in infix position reach an empty rule; the model flags this and ends the loop there.
- Statements: expression statements that write nothing (their values stay on the stack), `switch`, try/catch, functions, classes, imports inside programs and `for` increments of other shapes. A `for` increment is one of the directly recognised patterns.
- Emitters.Emitter.Statement: works on statement trees; the tokens of statements are not parsed, and an expression's code is the one PrattRoundTrip.ExpressionReadsPrint proves the parser emits for its tokens.
- After the first reported error the emitter of the model stops, while the original goes on emitting code that is never run.
- The stack is unbounded, numbers are real, and running off the end of the code stops the machine.
- The lexer's line counter, and numeric values of literals.
- Scanners.Scanner.ScanToken: does not say what is read past the terminator once a token overruns the source.
- The cache's locks, time stamps, allocation failure and null arguments, and freeing memory.
- BytecodeCache.Cache.Lookup: does not model the time of the last access.
- The rate limiter's configuration checks and the pool it protects.
- Importers.Importer.ImportModule: does not model file paths, how packages are discovered, reading errors after opening, or memory failure; whether a source succeeds is a parameter that may depend on its imports' results.
- Integer overflow in reading version numbers, which the C library leaves undefined, and allocation failure.
- Semver.ParseSemver: reads numbers of any size, because what the library does with too large ones is undefined.
- NUMA placement, huge pages beyond their size, the slab and large-object allocators, statistics, and a failing compare-and-swap in the arena, which only its own thread uses.
- Arena.ThreadArena.AllocFast: promises nothing about later allocations after one that wraps around, because the original then hands out memory it does not have.
