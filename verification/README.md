# Verified models of parts of the X Window System sources

This project models five parts of the repository in Dafny and proves what they promise.

* **makedepend** (`xc/config/makedepend`). `IfExpression` is the `#if` evaluator: a parser of twelve levels that
  evaluates while it reads characters. It is written over any kind of value, the code's own being longs; `IfGrammar`
  is the grammar as text with its layout, `IfRoundTrip` and `IfReading` prove the two directions of "accepts exactly
  this grammar", and `IfTrees` and `IfPrecedence` compare the trees and values with those of C. `DirectiveScanner` is
  the pair `find_includes`/`gobble` that executes a flat stream of directives; it is proved against the semantics of
  the tree of nested groups, and `BranchChoice` reads off its log which lines are executed. `SymbolTable`,
  `IncludeGraph`, `DefinitionSearch`, `DefinitionOrder` and `SymbolLookup` are the sorted symbol arrays, and the
  search for a symbol over a graph of includes that may be cyclic and that the search itself changes.
  `DependencyPrinter` is the marked walk that prints dependencies, and `PathCleanup` the cancelling of `x/..` pairs.
* **pswrap** (`xc/config/pswrap`). `PswDict` is its hash table and `WrapStrings` the printing of literals.
  `ArrayFlattening` rewrites arrays; `ObjectLayout`, `StringSharing` and `BinaryObjects` lay a token tree out as a
  PostScript binary object sequence (section 3.14.2 of the PostScript Language Reference, third edition);
  `ObjectMeaning` reads it again; `RuntimeOffsets` and `ArgumentValues` are the code emitted for one call, and
  `WrapBody` puts all of it together. Several separate walks of the source have to agree there byte for byte.
* **X-TrueType** (`xc/extras/X-TrueType`). `SbitBlit` (with `Words`, machine words as bits) is the bit blitter,
  `FontFaces` the opening and closing of engine, faces and fonts, where every library call may fail.
* **Win32 condition variables** (`xc/include/Xthreads.h`). `ConditionVariable` is a state machine with one C statement
  for each atomic step, over any number of threads, condition variables and mutexes; `ConditionCalls` follows a whole
  call through it.
* **getopt** of rman (`xc/extras/rman/getopt.c`), as `Getopt`.

Code that changes state in place is a class or works on arrays; its methods are proved against functions, and the
properties are proved about these functions. Files, symbol look-ups, symbolic links, library calls and the machine's
arithmetic are parameters, so that the theorems hold for all their answers.

`dafny verify dfyconfig.toml --resource-limit 2000000 --verification-time-limit 0` checks everything.

## Where the code does not do what it promises

Each of these is shown at a concrete input, and a lemma or a contract says for all inputs when it happens.

* *Condition variables* lose a wakeup when a thread may wait on two of them: its one waiter record is relinked while a
  signaller still has to follow it (`LostWakeup`, `SafeExactlyWhenExclusive`).
* *blit_stream* leaves the target for some drawings that its caller accepts (`FitsExactly`, `AcceptedButTooTall`).
* *The `#if` evaluator* announces the normal C precedence, but operators of one level associate to the right: its
  grouping is that of C exactly when no two of them follow each other without parentheses (`GroupsAsC`,
  `SubtractionAssociatesRight`). It evaluates all operands of `&&`, `||` and `?:`, which matters exactly when one that
  C skips traps (`EvaluatesAsC`, `SkippedDivisionTraps`).
* *Merging symbol tables* during a search hides what was reached only through the merged file and is not in its own
  table (`MergeHidesIff`, `SearchHides`). A failing search hides nothing when every file reached has been read to its
  end (`FailedSearchKeeps`), and can when one has not (`FailedSearchHides`).
* *remove_dotdot* asks whether `x` is a symbolic link in the working directory or the root, and not in the directory
  of `x` (`LinkBelowIsMissed`, `CancelKeepsIff`); it turns `d/..` into the empty string (`NothingIsLeft`,
  `CleanedKeeps`); and it steps over the end of a path with a slash at its end (`TrailingSlash`, `RemoveDotDot`).
* *A stray* `#else` or `#endif` is executed as a `#define`, exactly when it comes without an open group; a second
  `#else` makes the `#endif` stray (`StrayIff`, `LoneEndif`, `SecondElse`).
* *pswrap* lets a plain and a hexadecimal literal of one spelling share their characters (`ClashAtAPair`,
  `SharingIsRightIff`); counts the length of a literal name with a backslash wrongly or steps over its end, when user
  names are off (`BackslashNames`, `PlainLength`); prints the last of an odd number of hexadecimal digits as the low
  digit, where PostScript takes it as the high one (`OddDigits`, `HexMeaning`); sends an empty name, with user names
  off, as a user name (`EmptyNameIsMistaken`, `LeafUnderstood`); takes the short header for some sequences that are
  too long for it (`TooShortForTwo`, `TooShortIff`); stores offsets that differ from the order of writing in wraps
  with constant string arguments and two statics (`SwappedInStatic`, `StaticAgreesIff`); keeps an array with the
  executable name of a char parameter as a constant (`CharFormalIsNotExecuted`, `FlatteningKeepsIff`); and never
  assigns to a subscripted parameter inside an array or procedure (`ElementInArray`, `AllAssignedIff`).
* *FreeType_OpenFace* leaves a face open when memory for its entry runs out, and a dangling face table when a later
  call fails (`KeepFace`, `LoseTable`, `Renderer.OpenFace`); *FreeType_OpenFont* keeps the code converter of a failed
  open (`KeepConverter`, `Renderer.OpenFont`).

## Model

| member | source | states |
|---|---|---|
| ConditionCalls.SignalReleasesOne | xc/include/Xthreads.h:149-156 | A whole signal, from call to return, with the other threads running as they like in between: if anybody hangs from the condition variable when it enters the critical section, its own steps raise exactly one semaphore by one, that of the thread at the head of the list, which hangs there; otherwise they raise none |
| ConditionCalls.BroadcastReleasesEach | xc/include/Xthreads.h:157-164 | A whole broadcast raises by one the semaphore of each thread that hangs there when it enters the critical section, and no other; in total as many as hang |
| ConditionCalls.WaitTakesOne | xc/include/Xthreads.h:139-148 | A whole wait is eight steps of its own: its record goes to the front of the list before it gives up one level of the mutex, which it holds; then it takes exactly one token from its semaphore, and then it enters the mutex again; nothing else of the state but its link and the critical section is touched by it |
| ConditionCalls.SignalTail | xc/include/Xthreads.h:149-156 | From the test on, a signal still pays just the thread at the front of the list, if it has not yet done so |
| ConditionCalls.BroadcastTail | xc/include/Xthreads.h:157-164 | From any statement on, a broadcast still pays just the threads that hang at that moment |
| ConditionCalls.ReturnsExecutes | xc/include/Xthreads.h:133-164 | These runs are runs of the state machine that end with the thread outside |
| ConditionVariable.ReachableIsAccounted | xc/include/Xthreads.h:133-164 | In every state any schedule can reach, under an exclusive policy, every thread that has queued itself and not passed its semaphore is on the list of its condition variable exactly once and owed nothing, or on no list and owed exactly one token; nobody else is on a list or owed anything. So no wakeup is lost, duplicated or spurious |
| ConditionVariable.SafeExactlyWhenExclusive | xc/include/Xthreads.h:106-164 | That accounting holds for every schedule if and only if no thread that may wait on two condition variables shares one of them with a second thread while a third is there to signal |
| ConditionVariable.LostWakeup | xc/include/Xthreads.h:139-156 | For any policy that is not exclusive, a schedule after which a waiter is off every list, owed nothing and still blocked: the signaller follows a `next` link that the thread it has just released has overwritten by waiting elsewhere |
| ConditionVariable.EveryWaitIsPaidOnce | xc/include/Xthreads.h:139-164 | Conservation over whole runs: the tokens handed to a thread are the waits it has completed, plus one exactly when it is queued, off the list and about to pass |
| ConditionVariable.SignalFindsAWaiter | xc/include/Xthreads.h:149-156 | At the test of a signal the list is non-empty exactly when somebody is waiting there unreleased, and the thread that is then released is such a one |
| ConditionVariable.BroadcastReleasesAll | xc/include/Xthreads.h:157-164 | When a broadcast has run off the list, nobody is left waiting unreleased on that condition variable; each thread it releases was |
| ConditionVariable.HangingIsFindable | xc/include/Xthreads.h:139-164 | While anybody waits unreleased and nobody is inside the critical section, the list head is not NULL |
| ConditionVariable.WaitGivesBackTheMutex | xc/include/Xthreads.h:139-148 | At the statement that leaves the mutex the caller holds it; leaving a single level of it frees it for others; and the call returns holding it |
| ConditionVariable.ExecuteKeeps | xc/include/Xthreads.h:133-164 | The inductive invariant (lists, token balance, owners of critical sections, cursors, mutexes) survives every schedule |
| ConditionVariable.StepKeeps | xc/include/Xthreads.h:133-164 | It survives one atomic statement of any thread, and says which list that statement changed and how |
| ConditionVariable.WaitKeeps | xc/include/Xthreads.h:139-148 | It survives each of the seven statements of xcondition_wait |
| ConditionVariable.SignalKeeps | xc/include/Xthreads.h:149-156 | It survives each statement of xcondition_signal |
| ConditionVariable.BroadcastKeeps | xc/include/Xthreads.h:157-164 | It survives each statement of xcondition_broadcast |
| ConditionVariable.Unread | xc/include/Xthreads.h:142-142 | The delicate step: when a waiter overwrites its link while a signaller or broadcaster has still to read it, the new value is the old one, given an exclusive policy |
| ConditionVariable.InitInv | xc/include/Xthreads.h:128-136 | The invariant holds after xcondition_init and xmutex_init |
| SbitBlit.BlitStream | xc/extras/X-TrueType/xttblit.c:35-286 | For every flow, offset and size with align > 0 whose lines land inside the target, each target bit becomes its old value OR the source bit that belongs there (clipped left, right, above and below), and no other bit of the buffer changes |
| SbitBlit.BlitLine | xc/extras/X-TrueType/xttblit.c:133-271 | One line for any x offset, also one that puts the whole line left of the target: the bits of exactly `cols` bytes are ORed with the shifted source line, every other byte of the buffer is untouched |
| SbitBlit.ClipLeft | xc/extras/X-TrueType/xttblit.c:149-169 | After skipping what hangs over the left edge, the accumulator holds the source bits from -x on |
| SbitBlit.WholeBytes | xc/extras/X-TrueType/xttblit.c:173-245 | The do-while loop writes all whole bytes of the line and leaves fewer than eight bits |
| SbitBlit.OneByte | xc/extras/X-TrueType/xttblit.c:218-238 | One round of it: eight more source bits are in place and cursor, accumulator and count agree again |
| SbitBlit.LastBits | xc/extras/X-TrueType/xttblit.c:247-271 | The remaining bits, masked, finish the line |
| SbitBlit.WriteByte | xc/extras/X-TrueType/xttblit.c:226-232 | The byte is split over two target bytes, or one, or none at the right edge, so that the line is right up to the new position |
| SbitBlit.WrittenBit | xc/extras/X-TrueType/xttblit.c:226-232 | Bit by bit: what `val >> shift` and `val << space` leave is the old bit OR the source bit at the shifted position |
| SbitBlit.LastValue | xc/extras/X-TrueType/xttblit.c:260-260 | Masking with `~(0xFF >> count)` leaves just the source bits of the line and zeros |
| SbitBlit.LoadKeeps | xc/extras/X-TrueType/xttblit.c:219-223 | Loading a byte into the accumulator keeps it the window on the source that it has to be |
| SbitBlit.ShiftKeeps | xc/extras/X-TrueType/xttblit.c:162-163 | Shifting bits out moves that window on |
| SbitBlit.LineAdded | xc/extras/X-TrueType/xttblit.c:273-285 | A line drawn on top of the lines before it gives the image so far, and rows do not disturb each other |
| SbitBlit.OneLine | xc/extras/X-TrueType/xttblit.c:131-285 | One round of the loop over the lines adds exactly that line to the image |
| SbitBlit.StartPosition | xc/extras/X-TrueType/xttblit.c:55-64 | With lines 80-84 and 102-128: writing starts at the row and byte of the first visible line, reading at the first line that is not above the target |
| SbitBlit.DrawnAt | xc/extras/X-TrueType/xttblit.c:306-333 | The place of every pixel: column x + l and row rows - y - t for 64l <= xMin < 64(l + 1) and 64(t - 1) < yMax <= 64t, for images of either direction, on and off the pixel grid |
| SbitBlit.GetSbitBitmap | xc/extras/X-TrueType/xttblit.c:293-336 | Draws exactly when target and image have sizes and a direction and the image, placed with its left bearing rounded down and its ascent rounded up to pixels, overlaps the target as the checks ask; then bit k of a row of the target, counted from the top, becomes its old value OR bit k - (x + l) * depth of the image line that is seen there, top row rows - y - t; otherwise nothing changes |
| SbitBlit.FitsExactly | xc/extras/X-TrueType/xttblit.c:317-333 | The checks alone do not keep the drawing inside the target: it stays inside if and only if an image running downwards that starts above the target does not also end below it, and an image running upwards has no more lines than there are rows from its first one to the upper edge; said of the ascent and the sizes |
| SbitBlit.AcceptedButTooTall | xc/extras/X-TrueType/xttblit.c:317-333 | An accepted drawing that leaves the target: three lines from one row above a one-row target |
| SbitBlit.ImageReadable | xc/extras/X-TrueType/xttblit.c:317-333 | The checks do guarantee that every source byte read lies inside the source image |
| SbitBlit.PlacedInOrder | xc/extras/X-TrueType/xttblit.c:306-333 | For an image in its ordinary direction, source line l lands on row y + l counted from the top, for y of either sign |
| IfPrecedence.TwoOperators | xc/config/makedepend/ifparser.c:233-493 | For any two operators of the rows of C from { * / % } down to { \|\| } and any variables or numbers a, b, c: the text a s1 b s2 c is read as ((a s1 b) s2 c) if s1 stands in a tighter row, and as (a s1 (b s2 c)) otherwise |
| IfPrecedence.PrefixFirst | xc/config/makedepend/ifparser.c:160-176 | The prefix operators bind tighter than all of them |
| IfPrecedence.ConditionalLast | xc/config/makedepend/ifparser.c:470-493 | The conditional operator binds looser than all of them, and nests to the right |
| IfPrecedence.TwoNumbers | xc/config/makedepend/ifparser.c:233-468 | A line of two numbers and an operator is worth what C computes: 1 or 0 for the comparisons and logical operators, the result of the machine for the others, which traps where the machine does |
| IfPrecedence.ChoicesAreC | xc/config/makedepend/ifparser.c:160-493 | ! is 1 for 0 and 0 otherwise; ?: gives its second operand just when the first is not 0 |
| IfPrecedence.NumbersAreC | xc/config/makedepend/ifparser.c:93-110 | Decimal, octal and hexadecimal numbers, with any qualifiers behind them, are read as what they are |
| IfPrecedence.SpacesBetween | xc/config/makedepend/ifparser.c:74-74 | Any characters of isspace may stand around every token |
| IfReading.AcceptsExactly | xc/config/makedepend/ifparser.c:141-487 | At every level: what is accepted, how far it is read and the value returned are exactly what the grammar says, in both directions; the text is an expression of that level and nothing behind it goes on |
| IfReading.LineExactly | xc/config/makedepend/ifparser.c:494-498 | A line is read to its end with a value if and only if it is an expression of the grammar, in some layout, that has this value |
| IfReading.ErrorLeaves | xc/config/makedepend/cppsetup.c:200-222 | After an error the value the caller goes by is 0, or that of an operand in front of the place of the error, behind opening parentheses, prefix operators and spaces |
| IfReading.SingleIsTaken | xc/config/makedepend/ifparser.c:428-465 | The errors for a single & or \| at the levels of && and \|\| never occur: the tighter levels have taken each of them |
| IfReading.LevelWritten | xc/config/makedepend/ifparser.c:232-487 | Whatever a level accepts is the text of a fitting expression of that level, up to a place where no operator of the level follows |
| IfReading.ValueWritten | xc/config/makedepend/ifparser.c:141-228 | Whatever parse_value accepts is a number, character, name, `defined`, assertion, parenthesis, prefixed value, or nothing at the end of the line |
| IfRoundTrip.RoundTrip | xc/config/makedepend/ifparser.c:141-487 | Any expression of the grammar in any layout, read at any level it may stand at and whatever follows that does not continue it: exactly its text is consumed and its value returned, or the arithmetic traps where its own does; for values of any kind |
| IfRoundTrip.WholeLine | xc/config/makedepend/ifparser.c:494-498 | A whole #if line, with white space behind it, is consumed to its end and gives the value |
| IfRoundTrip.BinaryTrip | xc/config/makedepend/ifparser.c:232-466 | A level with an operator reads its operator, its left operand one level tighter and its right operand at its own level |
| IfRoundTrip.ConditionalTrip | xc/config/makedepend/ifparser.c:468-487 | `?:` evaluates both branches and returns the one chosen |
| IfRoundTrip.ValueReads | xc/config/makedepend/ifparser.c:141-228 | parse_value reads a value of the grammar, and stops where its last token ends |
| IfRoundTrip.SymbolFound | xc/config/makedepend/ifparser.c:239-466 | An operator is recognised by its own level, whatever operand follows |
| IfRoundTrip.SymbolPassed | xc/config/makedepend/ifparser.c:239-466 | No tighter level takes it for one of its own, although operators are prefixes of each other |
| IfRoundTrip.AnswersAll | xc/config/makedepend/ifparser.c:181-188 | A list of answers with any separators is read to just behind its closing parenthesis, all names in order |
| IfRoundTrip.StrtolAll | xc/config/makedepend/ifparser.c:101-101 | Decimal, octal and hexadecimal numerals (0x or 0X) end where no digit of their base follows and denote their value |
| IfTrees.LineMeansTree | xc/config/makedepend/ifparser.c:31-54 | In every layout and with any additional parentheses, a line is worth what its tree is worth |
| IfTrees.OneTree | xc/config/makedepend/ifparser.c:31-54 | The grammar is unambiguous: two expressions with one text have one tree, and end at one place |
| IfTrees.TreeRoundTrip | xc/config/makedepend/ifparser.c:31-54 | Printing any expression tree with as few parentheses as possible and parsing the text gives the value of the tree |
| IfTrees.SpellFits | xc/config/makedepend/ifparser.c:31-54 | That spelling obeys the grammar and has that tree |
| IfTrees.SpellIsMinimal | xc/config/makedepend/ifparser.c:31-54 | No expression of the grammar with the same tree has fewer parentheses |
| IfTrees.EveryParenCounts | xc/config/makedepend/ifparser.c:31-54 | A line with fewer parentheses than that is read as another tree |
| IfTrees.GroupsAsC | xc/config/makedepend/ifparser.c:31-54 | The code groups a line as C does if and only if no two operators of one level follow each other without parentheses |
| IfTrees.CFormFits | xc/config/makedepend/ifparser.c:54-54 | What is compared with is an expression of C's grammar: left operands may be equally tight, right ones not |
| IfTrees.CFormText | xc/config/makedepend/ifparser.c:54-54 | and it has the same text |
| IfTrees.LogicalChainsKeep | xc/config/makedepend/ifparser.c:428-466 | Chains of && alone or of \|\| alone have the same value either way |
| IfTrees.EvaluatesAsC | xc/config/makedepend/ifparser.c:428-487 | Evaluating every operand differs from C if and only if C gives a value and an operand that C skips traps |
| IfTrees.LineAsC | xc/config/makedepend/ifparser.c:494-498 | A line whose only chains are of && or of \|\|, and in which nothing that C skips traps, has the value C gives it |
| IfTrees.SubtractionAssociatesRight | xc/config/makedepend/ifparser.c:260-281 | 8-3-2 is 7 here and 3 in C, for any arithmetic that gets these four differences right |
| IfTrees.SkippedDivisionTraps | xc/config/makedepend/ifparser.c:246-249 | 0&&1/0 traps here and is 0 in C |
| IfExpression.SkipSpaces | xc/config/makedepend/ifparser.c:81-81 | The loop skips white space only, and all of it |
| IfExpression.ReadVariable | xc/config/makedepend/ifparser.c:78-90 | Behind the white space the longest name is read, and nothing else |
| IfExpression.ReadNumber | xc/config/makedepend/ifparser.c:93-110 | Succeeds exactly at a digit; the number read and all qualifiers behind it are consumed |
| IfExpression.ReadCharacter | xc/config/makedepend/ifparser.c:136-136 | The loop stops at the first quote; without one it leaves the line |
| IfExpression.ReadAnswers | xc/config/makedepend/ifparser.c:181-188 | The do-while loop returns all names of the list and the cursor behind it, or the error |
| BranchChoice.OneBranchIsExecuted | xc/config/makedepend/parse.c:515-571 | A group with one definition in each part adds exactly one Defined event: that of the first part if its condition holds (#if), its name is known (#ifdef) or not known (#ifndef); otherwise that of the first #elif whose condition holds in the state at its line, or else of the #else part; or none |
| BranchChoice.TailChoice | xc/config/makedepend/parse.c:515-571 | The same for the parts behind the first |
| BranchChoice.GroupIsRead | xc/config/makedepend/parse.c:505-628 | The lines of such a group, one after the other, are read as that group |
| BranchChoice.SkippingAsks | xc/config/makedepend/parse.c:37-86 | Skipping properly nested lines asks just for the conditions of the #elif lines among them, at every depth, in their order |
| BranchChoice.OneLineAdds | xc/config/makedepend/parse.c:582-598 | #define and #undef add one event with their own text or name, an #undef without a name and the other directives none |
| BranchChoice.IncludeAdds | xc/config/makedepend/pr.c:36-71 | An #include adds its question; the pair of files if it means one; and for a file that has not been searched its opening, what its lines add, and its end |
| DirectiveScanner.Scanner.FindIncludes | xc/config/makedepend/parse.c:505-628 | Executes the lines exactly as the tree of nested groups says: of each group the first body whose condition holds in the state at its line, else the #else part, else none; stops just past the terminator of the enclosing group; terminates on cyclic includes |
| DirectiveScanner.Scanner.Gobble | xc/config/makedepend/parse.c:37-86 | Skips exactly to the next terminator of the enclosing group, with no effect but the evaluation of #elif conditions, and returns its kind |
| DirectiveScanner.Scanner.Conditional | xc/config/makedepend/parse.c:515-571 | The doif/doiffalse loop is the tree semantics of the rest of a group |
| DirectiveScanner.Scanner.OpenGroup | xc/config/makedepend/parse.c:515-572 | #if, #ifdef and #ifndef execute one body of their group |
| DirectiveScanner.Scanner.SkipRest | xc/config/makedepend/parse.c:519-523 | After a body has been executed the rest of the group is skipped to its #endif |
| DirectiveScanner.Scanner.Stray | xc/config/makedepend/parse.c:573-584 | A terminator outside every group reaches DEFINE with its own line, an #else or #elif after its body has been skipped |
| DirectiveScanner.Scanner.Plain | xc/config/makedepend/parse.c:582-598 | The remaining directives have exactly their own effect |
| DirectiveScanner.Scanner.AddInclude | xc/config/makedepend/pr.c:36-71 | The include is recorded; the file is read only if it has not been searched, and is marked before it is read |
| DirectiveScanner.Scanner.EvaluateElif | xc/config/makedepend/parse.c:45-45 | An #elif condition met while skipping is evaluated in the state at its line, and its kind is returned |
| DirectiveScanner.Scanner.FinishFile | xc/config/makedepend/parse.c:626-626 | The end of a file finishes it once |
| DirectiveScanner.EveryFileOpenedOnce | xc/config/makedepend/pr.c:62-70 | Over a whole run from a fresh start, whatever the includes and conditions, no file is read twice and every included file has been searched |
| DirectiveScanner.SkipOnlyEvaluates | xc/config/makedepend/parse.c:37-86 | Skipped lines define, undefine and include nothing |
| DirectiveScanner.LinesOfFile | xc/config/makedepend/parse.c:505-628 | Reading a stream as a tree loses no line: written out again it is the stream |
| DirectiveScanner.ItemsOfLines | xc/config/makedepend/parse.c:505-628 | A properly nested tree written out is read back as that tree, up to the terminator behind it |
| DirectiveScanner.StrayIff | xc/config/makedepend/parse.c:573-584 | A terminator of a file is executed as a #define if and only if it comes without an open group, where behind its #else a group is closed by any terminator |
| DirectiveScanner.LoneEndif | xc/config/makedepend/parse.c:573-584 | The shortest such file: its one #endif defines |
| DirectiveScanner.SecondElse | xc/config/makedepend/parse.c:45-52 | In `#ifdef #else #else #endif` the second #else closes the group and the #endif is left over |
| DirectiveScanner.CleanItems | xc/config/makedepend/parse.c:37-86 | Reading the items of a group leaves the open groups around it as they are |
| DirectiveScanner.FileOfLines | xc/config/makedepend/parse.c:505-628 | So a whole properly nested file is executed as the tree it was written from |
| SymbolTable.CompareNames | xc/config/makedepend/parse.c:326-350 | The inline comparison orders names as strcmp does: negative, zero and positive exactly for below, equal and above |
| SymbolTable.InsertKeeps | xc/config/makedepend/parse.c:361-374 | Inserting at the place found keeps the table strictly sorted and adds one entry to the map it stands for |
| SymbolTable.DeleteKeeps | xc/config/makedepend/parse.c:497-501 | Deleting an entry removes its name and nothing else from the map |
| SymbolTable.MergeIsUnion | xc/config/makedepend/parse.c:434-490 | A merge is sorted and is the union of the two maps, the second winning |
| SymbolTable.MergeEntries | xc/config/makedepend/parse.c:434-490 | Each entry of a merge is one of the second table, or one of the first whose name the second lacks |
| IncludeGraph.IncludeFile.Slookup | xc/config/makedepend/parse.c:396-432 | Binary search finds the entry if and only if the name is in the table |
| IncludeGraph.IncludeFile.FindPlace | xc/config/makedepend/parse.c:317-350 | The search of define2 ends with the matching entry, or with everything up to `below` smaller and everything after it greater |
| IncludeGraph.IncludeFile.Grow | xc/config/makedepend/parse.c:302-315 | The table is enlarged before it can overflow, with its contents kept |
| IncludeGraph.IncludeFile.InsertAt | xc/config/makedepend/parse.c:361-374 | The entries above move up by one slot and the new one is put in its place |
| IncludeGraph.IncludeFile.Define2 | xc/config/makedepend/parse.c:295-375 | The name has the value afterwards, in the entry it had (then seen by every table that shares it) or in exactly one new entry; all other entries keep theirs; the table stays sorted and within its allocation |
| IncludeGraph.IncludeFile.RemoveAt | xc/config/makedepend/parse.c:497-501 | The entries above move down over the removed one; order and capacity are kept |
| IncludeGraph.IncludeFile.Merge2Defines | xc/config/makedepend/parse.c:434-490 | The new array holds exactly the union of both tables, the other file winning, and fits what was allocated |
| IncludeGraph.MergeArrays | xc/config/makedepend/parse.c:459-481 | The three merging loops compute the merge of the two sorted tables |
| IncludeGraph.MergeBoth | xc/config/makedepend/parse.c:459-473 | While both tables have entries left the smaller head is taken, or of two equal ones that of the second file, and both are passed |
| IncludeGraph.CopyRest | xc/config/makedepend/parse.c:474-481 | What is left of either table is copied behind |
| IncludeGraph.IncludeFile.constructor | xc/config/makedepend/include.c:148-168 | A new file includes nothing, defines nothing and has no flag set |
| IncludeGraph.IncludeFile.IncludedBy | xc/config/makedepend/include.c:171-219 | A file is put on the list at most once, at its end, unmerged; nothing else on the list changes |
| DefinitionOrder.FirstIsFound | xc/config/makedepend/parse.c:234-265 | Among several definitions fdefined finds the one that a plain depth-first walk over the include graph of the start comes to first: the own table of a file before those of its includes, these in the order of the list, and no file of the path again; although the search merges tables and cuts edges on the way |
| DefinitionOrder.FileFirst | xc/config/makedepend/parse.c:234-265 | The invariant of that: at every point of a search the walk with the files on the stack as its path finds what the search will find |
| DefinitionOrder.FirstIncludeWins | xc/config/makedepend/parse.c:234-265 | So if a file does not define the symbol itself, the definition found is reached from the first of its includes that sees the symbol |
| DefinitionSearch.SearchIsExact | xc/config/makedepend/parse.c:234-265 | Started with no file on the stack, fdefined finds the symbol if and only if some file reached over edges unmerged at the start defined it then, on cyclic graphs and although it merges and cuts edges on the way; all DEFCHECKED flags are clear again; the entry returned is one of that symbol in the table the file has at the end |
| DefinitionSearch.FileSearch | xc/config/makedepend/parse.c:234-265 | The invariant of the recursion: an unsuccessful search closes the set of files seen under the edges of the start; a successful one returns a reachable entry that was there all along |
| DefinitionSearch.FileProgress | xc/config/makedepend/parse.c:234-265 | A search only cuts edges; tables only gain names that others have, and change only when an edge is cut |
| DefinitionSearch.FileLeaves | xc/config/makedepend/parse.c:234-265 | A search leaves the files that are being visited alone |
| DefinitionSearch.MergeKeepsVisible | xc/config/makedepend/parse.c:251-257 | Merging a finished file hides nothing when all its own edges have been merged |
| DefinitionSearch.MergeHidesIff | xc/config/makedepend/parse.c:251-257 | In general a merge hides a symbol from the including file if and only if that file saw it only over the edge to the merged file, and the merged file sees it without having it in its own table; and a merge shows nothing new |
| DefinitionSearch.VisibleAfterMerge | xc/config/makedepend/parse.c:251-257 | After a merge exactly the names in the merged table, and what is seen without the edge to it, are visible |
| DefinitionSearch.VisibleAround | xc/config/makedepend/parse.c:234-265 | A file sees what it sees without one of its edges, and what the file behind that edge sees |
| DefinitionSearch.FailedSearchKeeps | xc/config/makedepend/parse.c:234-265 | A whole search that fails hides nothing from the file it starts from, when all files that one reaches have been read to their end: all it saw is then in its own table, on cyclic graphs too |
| DefinitionSearch.FailedSearchHides | xc/config/makedepend/parse.c:251-257 | A three-file graph, with a file still being read, in which a failing search hides a symbol |
| DefinitionSearch.SearchShowsNothingNew | xc/config/makedepend/parse.c:234-265 | After any search, found or not, no file sees a symbol that it did not see before |
| DefinitionSearch.AbsorbEntries | xc/config/makedepend/parse.c:251-257 | In the merged table every name has the entry of the file merged, if that has one, and otherwise the one it had |
| DefinitionSearch.SearchHides | xc/config/makedepend/parse.c:251-257 | A four-file graph in which one search makes a symbol invisible that was visible before |
| SymbolLookup.FDefined | xc/config/makedepend/parse.c:234-265 | The method on the files themselves: it leaves exactly the graph and returns exactly the entry of the search above, and the array returned is the live table of the reported file |
| SymbolLookup.SearchIncludes | xc/config/makedepend/parse.c:244-262 | Its loop over the included files |
| SymbolLookup.SearchOne | xc/config/makedepend/parse.c:251-257 | One round of it: the included file is searched, then merged if it is finished |
| SymbolLookup.AbsorbFile | xc/config/makedepend/parse.c:251-257 | A finished file is merged into its includer and the edge is cut; an unfinished one changes nothing |
| SymbolLookup.IsDefined | xc/config/makedepend/parse.c:267-281 | If the symbol is in the command-line table at the start, the answer is an entry of it there and the graph is left as it was; otherwise it is an entry of the file that the plain walk over the graph of the start comes to first, in the table which that file had at the start |
| SymbolLookup.SearchAllWins | xc/config/makedepend/parse.c:267-281 | The same of the search as a function, and the file is one that is reached |
| SymbolLookup.Undefine | xc/config/makedepend/parse.c:492-503 | Terminates although each look-up may make new copies; afterwards the symbol is visible neither from the file nor on the command line, every table is sorted and within its allocation, and no table has lost another name |
| SymbolLookup.UndefineRound | xc/config/makedepend/parse.c:495-502 | Each round leaves fewer unmerged edges, or as many and fewer files that hold the symbol |
| SymbolLookup.UndefineFrom | xc/config/makedepend/parse.c:497-502 | From any entry found on, the rounds come to an end with the symbol gone |
| SymbolLookup.RemoveEntry | xc/config/makedepend/parse.c:499-501 | The entry found is taken out of the live table of its file |
| SymbolLookup.OneRound | xc/config/makedepend/parse.c:495-502 | The same for the graph as a value, for every graph |
| SymbolLookup.SearchAllProgress | xc/config/makedepend/parse.c:267-281 | A look-up cuts an edge or leaves the holders of the symbol alone; an unsuccessful one means it is not visible |
| SymbolLookup.RemoveKeeps | xc/config/makedepend/parse.c:497-501 | Removing an entry leaves one holder fewer and every other name in place |
| DependencyPrinter.WalkIsExact | xc/config/makedepend/pr.c:108-120 | Started with clear marks on any graph, the walk marks exactly the files reachable from the root and comes to each of them once, to the root first |
| DependencyPrinter.WalkMarks | xc/config/makedepend/pr.c:108-120 | From any marks: nothing marked is visited, nothing is visited twice, and nothing visited has an unmarked include |
| DependencyPrinter.RecursivePrInclude | xc/config/makedepend/pr.c:108-120 | The method sets exactly those marks and prints a dependency for each file of the walk but the source file |
| DependencyPrinter.PrIncludes | xc/config/makedepend/pr.c:117-119 | Its loop over the included files continues that walk |
| DependencyPrinter.Printer.Pr | xc/config/makedepend/pr.c:73-106 | Adds exactly one dependency to the rules make reads, on the current line if it is of this source file and has room and in a new rule otherwise; the verbose comment is written once for each file and breaks the line |
| DependencyPrinter.PrintDependencies | xc/config/makedepend/main.c:450-458 | For one source file every file it reaches, and no other, becomes a dependency of its target exactly once, the source file itself never; the marks are clear afterwards |
| DependencyPrinter.IncClean | xc/config/makedepend/include.c:221-229 | All marks are cleared |
| DependencyPrinter.Wrote | xc/config/makedepend/pr.c:82-93 | What one write adds to the rules, to the current target and to the length of the line |
| DependencyPrinter.BaseBefore | xc/config/makedepend/main.c:612-622 | The base name is a prefix of the file name |
| PathCleanup.RemoveDotDot | xc/config/makedepend/include.c:78-145 | Computes the cleaned path for every path that does not end in a slash; for one that does the slicing loop steps past the end of the string |
| PathCleanup.Slice | xc/config/makedepend/include.c:89-103 | The slices are the components of the path, exactly when no slash is at its end |
| PathCleanup.SkipSlashes | xc/config/makedepend/include.c:96-97 | A run of slashes separates components once |
| PathCleanup.CancelPairs | xc/config/makedepend/include.c:105-124 | Stepping back after each removal computes the same as cancelling with a stack, and terminates |
| PathCleanup.MoveDown | xc/config/makedepend/include.c:113-118 | The do-while loop closes the gap of the removed pair |
| PathCleanup.Concatenate | xc/config/makedepend/include.c:125-139 | The remaining components are joined with single slashes |
| PathCleanup.CancelKeepsIff | xc/config/makedepend/include.c:73-77 | Cancelling keeps what every path names, from every directory, if and only if the parent undoes the child for every name not taken for a symbolic link |
| PathCleanup.CleanedIsReduced | xc/config/makedepend/include.c:78-145 | The cleaned path is the leading slash and what is left of the components when pairs x/.. with x neither . nor .. nor taken for a link are taken out one after the other until there is none |
| PathCleanup.CleanedKeeps | xc/config/makedepend/include.c:78-145 | In such a file system the cleaned path names what the path named, but for a relative path of which nothing is left (it becomes the empty string); and it has no removable pair |
| PathCleanup.CancelLeavesNone | xc/config/makedepend/include.c:105-124 | The result has no adjacent pair that could still be cancelled |
| PathCleanup.LinkBelowIsMissed | xc/config/makedepend/include.c:51-71 | A symbolic link below the first component is looked for in the wrong directory: `d/l/../f` becomes `d/f`, another file |
| PathCleanup.NothingIsLeft | xc/config/makedepend/include.c:105-145 | `d/..` is cleaned to the empty string |
| PathCleanup.TrailingSlash | xc/config/makedepend/include.c:94-102 | For `d/` the loop steps over the end |
| PathCleanup.JoinSplits | xc/config/makedepend/include.c:125-139 | Splitting the joined components gives them back |
| PswDict.Dict.constructor | xc/config/pswrap/pswdict.c:78-85 | A new dictionary is valid and empty |
| PswDict.Dict.Lookup | xc/config/pswrap/pswdict.c:122-130 | The value of the name, or -1 exactly when it is absent |
| PswDict.Dict.Enter | xc/config/pswrap/pswdict.c:132-147 | Adds the name or replaces its value and touches no other; chains stay in their buckets, without repetition and acyclic; says which of the two happened |
| PswDict.Dict.Remove | xc/config/pswrap/pswdict.c:149-161 | Takes out that name only and returns its value, or -1 |
| PswDict.Dict.Probe | xc/config/pswrap/pswdict.c:101-108 | Walking the chain of the hash bucket finds the entry if and only if the name is in the map |
| PswDict.Dict.PrevProbe | xc/config/pswrap/pswdict.c:110-120 | Also finds the entry before it in the chain |
| PswDict.Hash | xc/config/pswrap/pswdict.c:93-99 | The hash is a bucket number, also for sums that are negative |
| PswDict.Unlink | xc/config/pswrap/pswdict.c:153-160 | Unlinking at the head or behind the predecessor takes exactly that entry out of the chain |
| PswDict.SetValue | xc/config/pswrap/pswdict.c:137-140 | A new value for a name that is present changes its entry only |
| PswDict.Push | xc/config/pswrap/pswdict.c:141-144 | A new entry becomes the head of its chain |
| PswDict.Dict.Add | xc/config/pswrap/pswdict.c:141-145 | The other chains stay as they are |
| PswDict.ChainDrop | xc/config/pswrap/pswdict.c:149-161 | The chain without the entry is the chain of the keys without the name |
| PswDict.ChainAdd | xc/config/pswrap/pswdict.c:141-146 | The chain with a new entry in front is the chain of the keys and the name |
| WrapStrings.StringLength | xc/config/pswrap/pswstring.c:50-62 | For every text, what the loop counts, or that it steps over the end; for an encoded string the number of characters it stands for |
| WrapStrings.PlainLength | xc/config/pswrap/pswstring.c:50-62 | A text that the scanner leaves as written, as it does with a literal name, has its length counted if and only if it has no backslash |
| WrapStrings.OutputStringChars | xc/config/pswrap/pswstring.c:64-115 | The list printed has a C constant for each character, with the right value and exactly one separator between two |
| WrapStrings.OutputChar | xc/config/pswrap/pswstring.c:73-110 | The constant chosen denotes the next character, and the right number of encoding characters is consumed |
| WrapStrings.OutputHexStringChars | xc/config/pswrap/pswstring.c:122-140 | The same for hexadecimal strings |
| WrapStrings.HexLengths | xc/config/pswrap/pswstring.c:117-120 | The length computed is the number of constants printed, also for an odd number of digits |
| WrapStrings.BackslashNames | xc/config/pswrap/pswstring.c:50-62 | The length of `/a\b` is not found, and that of `/a\bcd` is 2 |
| WrapStrings.OddDigits | xc/config/pswrap/pswstring.c:122-140 | <4> is printed as 4 and means 64 |
| WrapStrings.HexMeaning | xc/config/pswrap/pswstring.c:122-140 | What is printed is what the string means in PostScript if and only if the number of digits is even or the last digit is 0 |
| ArrayFlattening.FlattenSomeArrays | xc/config/pswrap/psw.c:1314-1368 | The loop, which splices an array into the list it is walking, computes the flattened list and terminates |
| ArrayFlattening.AllLiterals | xc/config/pswrap/psw.c:1282-1312 | True exactly when no token of the array or of the arrays in it is a name that is not a formal |
| ArrayFlattening.FlatteningKeepsIff | xc/config/pswrap/psw.c:1314-1368 | For all operators and stacks the flattened body leaves the stack of the original with arrays read as `[ ... ]`, if and only if no array that stays a constant holds an executable name given by a char formal |
| ArrayFlattening.FlatteningKeeps | xc/config/pswrap/psw.c:1314-1368 | One direction for each run: same final stack, or the same failure |
| ArrayFlattening.EachToken | xc/config/pswrap/psw.c:1314-1368 | An array stays, with its elements flattened, exactly when no token in it, or in the arrays in it at any depth, is a name that is not a parameter; otherwise its flattened elements stand between brackets; every other token stays, procedures with their bodies flattened |
| ArrayFlattening.LiteralMeans | xc/config/pswrap/psw.c:1282-1312 | What AllLiterals asks, said of the tokens at all depths |
| ArrayFlattening.FlattenedIsConstant | xc/config/pswrap/psw.c:1314-1368 | Every array left at any depth, also inside procedures, satisfies AllLiterals |
| ArrayFlattening.FlattenedExpands | xc/config/pswrap/psw.c:1314-1368 | Written with `[ ... ]` for every array, the flattened body is the original |
| ArrayFlattening.FaithfulFlattened | xc/config/pswrap/psw.c:1320-1342 | The arrays left can all be pushed instead of executed exactly when the source is faithful |
| ArrayFlattening.InertRuns | xc/config/pswrap/psw.c:1282-1312 | Executing `[ ... ]` around data pushes exactly the array |
| ArrayFlattening.CharFormalIsNotExecuted | xc/config/pswrap/psw.c:1289-1295 | An array holding the name of a char formal stays a constant and loses its meaning |
| ObjectLayout.LayoutOk | xc/config/pswrap/psw.c:617-708 | The work list comes to every body once and lays it in one piece behind its owner; the pieces tile the table, without gap or overlap |
| ObjectLayout.DecodeShape | xc/config/pswrap/psw.c:863-870 | Reading the objects from any place, following (count, offset) pairs, rebuilds the token tree |
| ObjectLayout.PushFits | xc/config/pswrap/psw.c:697-702 | The work list only holds different composite tokens that have been passed |
| StringSharing.PlaceLiterals | xc/config/pswrap/psw.c:734-759 | Each literal gets the address of the stored characters of its spelling; total size and number of fields agree |
| StringSharing.CheckLiterals | xc/config/pswrap/psw.c:550-564 | The same bytes are counted by CheckSize |
| StringSharing.PrintLiterals | xc/config/pswrap/psw.c:1080-1095 | An initialiser for each stored literal, in the order of the fields and with as many constants as the field is long |
| StringSharing.FixupLiterals | xc/config/pswrap/psw.c:1441-1476 | The same distances from the first literal, and the same total |
| StringSharing.LookOrEnter | xc/config/pswrap/psw.c:739-758 | One round: a known spelling is shared, a new one stored, and entered while there is room |
| StringSharing.LookOrEnterZero | xc/config/pswrap/psw.c:553-557 | The walks that only need to know whether a spelling is new enter the same spellings |
| StringSharing.LiteralLength | xc/config/pswrap/psw.c:746-749 | The length is that of the characters printed, for either kind |
| StringSharing.PlaceSound | xc/config/pswrap/psw.c:734-759 | Every field lies inside the stored bytes and holds the characters of the literal it was made for, which has the same spelling |
| StringSharing.SharingIsRightIff | xc/config/pswrap/psw.c:739-757 | Every literal points at its own characters if and only if the dictionary was full before the first literal of every pair of one non-empty spelling, one plain and one hexadecimal; for every list of literals |
| StringSharing.FieldAt | xc/config/pswrap/psw.c:739-757 | A literal points at the field of the first literal of its spelling if the dictionary had room for that one, and otherwise at a field of its own |
| StringSharing.ClashAtAPair | xc/config/pswrap/psw.c:739-757 | Of `(41) <41>` the second gets the characters of the first |
| StringSharing.SameSpelling | xc/config/pswrap/psw.c:746-749 | A hexadecimal and a plain literal of one spelling have the same characters only if they have none |
| StringSharing.OutputLiteral | xc/config/pswrap/psw.c:1087-1091 | The constants printed are the characters of the literal |
| BinaryObjects.Wrap.BuildTypesAndAssignAddresses | xc/config/pswrap/psw.c:591-790 | Token k sits at byte 8k; every body is at the place the walk lays it; arrays, literals and strings follow one another; the size returned is that of everything; `twoStatics` and `writable` say what they mean |
| BinaryObjects.Wrap.CheckSize | xc/config/pswrap/psw.c:446-589 | Reports the long header exactly when that same total exceeds 0xFFFF, though it is computed by a separate walk |
| BinaryObjects.ConstructStatics | xc/config/pswrap/psw.c:998-1104 | One initialiser for each declared field, in the same order and split; each string initialiser has as many constants as its field; the objects read from offset 0 are the token tree |
| BinaryObjects.TableDecodes | xc/config/pswrap/psw.c:591-708 | Once the addresses are assigned, decoding the object table from offset 0 gives back the token tree, and the bodies tile the table |
| BinaryObjects.Wrap.AssignAddresses | xc/config/pswrap/psw.c:617-708 | The walk gives each token its address and index, sorts the tokens onto the three lists and patches the address of every body |
| BinaryObjects.Wrap.AssignToken | xc/config/pswrap/psw.c:627-706 | What one token contributes: list, name count, and whether its encoding is known before the call |
| BinaryObjects.Wrap.AssignNext | xc/config/pswrap/psw.c:627-706 | One round of the inner loop extends everything established so far by one token |
| BinaryObjects.Wrap.AssignList | xc/config/pswrap/psw.c:627-706 | The inner loop does so for a whole body |
| BinaryObjects.Wrap.PlaceBody | xc/config/pswrap/psw.c:622-626 | A pending token gets the address where its body is laid next |
| BinaryObjects.Wrap.PlaceData | xc/config/pswrap/psw.c:723-778 | The three data loops place arrays, then literals, then strings, without overlap |
| BinaryObjects.Wrap.PlaceLists | xc/config/pswrap/psw.c:715-789 | The data are placed behind the objects, addresses of bodies stay, and the total is the size of everything |
| BinaryObjects.PlaceArrays | xc/config/pswrap/psw.c:723-732 | Each array argument is placed behind those before it |
| BinaryObjects.PlaceNamedStrings | xc/config/pswrap/psw.c:761-778 | Each string argument is placed behind those before it, padding included |
| BinaryObjects.SumArrays | xc/config/pswrap/psw.c:544-548 | CheckSize counts the same bytes for the arrays |
| BinaryObjects.SumStrings | xc/config/pswrap/psw.c:566-581 | and for the strings |
| BinaryObjects.EmitObjects | xc/config/pswrap/psw.c:1015-1073 | One object for each token in the order of the walk, and the same literals gathered again |
| BinaryObjects.EmitList | xc/config/pswrap/psw.c:1020-1071 | One body of it, in the same order, with the bodies in it pending |
| BinaryObjects.Wrap.CollectToken | xc/config/pswrap/psw.c:480-538 | CheckSize puts each token on the same list as BuildTypesAndAssignAddresses, although its switch differs |
| BinaryObjects.Wrap.CollectNext | xc/config/pswrap/psw.c:475-539 | One round of its inner loop |
| BinaryObjects.Wrap.CollectList | xc/config/pswrap/psw.c:475-539 | A whole body of it |
| BinaryObjects.Wrap.CollectAll | xc/config/pswrap/psw.c:465-541 | The walk of CheckSize comes to the same tokens and fills the same lists |
| BinaryObjects.ChooseStrings | xc/config/pswrap/psw.c:1027-1070 | So does ConstructStatics for literals and arrays |
| BinaryObjects.Wrap.SetNameTag | xc/config/pswrap/psw.c:285-305 | A well-known name gets its tag, any other is counted unless user names are off |
| BinaryObjects.LayoutPop | xc/config/pswrap/psw.c:622-630 | The place computed for the next pending body is the one where the walk has arrived |
| BinaryObjects.ListsApart | xc/config/pswrap/psw.c:723-778 | The three lists hold different tokens, none of them with a body, so placing data never overwrites the address of a body |
| BinaryObjects.GatherChosen | xc/config/pswrap/psw.c:627-706 | A list holds each token of its use once |
| ObjectMeaning.TableMeansTokens | xc/config/pswrap/psw.c:864-1104 | Read from offset 0 as section 3.14.2 of the PostScript Language Reference has it, with the characters behind them, the objects are what the tokens of the wrap stand for: numbers, strings and names with their characters, system names with their numbers, literal or executable, arrays and procedures with their elements, and the places of the arguments |
| ObjectMeaning.LeafUnderstood | xc/config/pswrap/psw.c:864-994 | For one token without a body that holds if and only if it is not a name, spelled out because user names are off, whose length says user name (0) or system name |
| ObjectMeaning.EmptyNameIsMistaken | xc/config/pswrap/psw.c:908-920 | The literal name / is then read as a user name |
| ObjectMeaning.DecodeMeans | xc/config/pswrap/psw.c:864-870 | From any place of the table on |
| ObjectMeaning.LiteralsPointRight | xc/config/pswrap/psw.c:734-759 | Every literal of the wrap points at its own characters when sharing is right |
| WrapBody.EmitBody | xc/config/pswrap/psw.c:1815-1890 | From the token tree to the bytes of one call: the objects of the static mean the tokens; the long header is taken just when there are more than 255 top objects, more than 0xFFFF bytes or a char * parameter; where the offsets agree with the writes (in writable wraps always, in the others as StaticAgreesIff says), the object of every argument has the number of its elements as its length and leads to just its data |
| WrapBody.Compile | xc/config/pswrap/psw.c:1815-1870 | The header, the static and the assignments of the arguments |
| WrapBody.ArgumentsFound | xc/config/pswrap/psw.c:1371-1478 | Where the offsets agree, every array and string argument is found whole |
| WrapBody.LengthIsSent | xc/config/pswrap/psw.c:1606-1661 | The length of an argument is assigned when it varies, and stands in the static when it does not |
| WrapBody.TokensInTree | xc/config/pswrap/psw.c:617-708 | The tokens of the walk are tokens of the tree |
| WrapBody.TooShortIff | xc/config/pswrap/psw.c:1832-1835 | A wrap of constant lengths gets a header too short for it if and only if it has at most 255 top objects, no char * parameter, and 0xFFFC to 0xFFFF bytes without the header |
| WrapBody.TooShortForTwo | xc/config/pswrap/psw.c:1832-1835 | An array of 8189 integers and a string of 5 characters make such a wrap |
| RuntimeOffsets.CallWrap | xc/config/pswrap/psw.c:1878-1886 | In a call of a writable wrap every offset stored is the byte where the data are written, and nBytes is everything written; in the other wraps exactly under the condition of StaticAgreesIff |
| RuntimeOffsets.FixupOffsets | xc/config/pswrap/psw.c:1371-1478 | The offsets computed for every array argument, string argument and literal, for all run-time lengths and padding, are the positions of the data, and the total is the length of the sequence |
| RuntimeOffsets.WriteObjSeq | xc/config/pswrap/psw.c:1674-1751 | Writes the objects, then each array, then each string with its padding, then the second static, at just those positions |
| RuntimeOffsets.SwappedInStatic | xc/config/pswrap/psw.c:734-778 | A wrap with one array, one string and one literal, all constant: its static says 49 and 48 where the string and the literal are written at 48 and 56 |
| RuntimeOffsets.StaticAgreesIff | xc/config/pswrap/psw.c:734-778 | When no length varies, the offsets in the static agree with the order of writing if and only if there is one static, or no string argument, or neither strings nor literals take bytes |
| RuntimeOffsets.WriteStrings | xc/config/pswrap/psw.c:1695-1744 | Every string starts where the lengths and paddings before it end |
| RuntimeOffsets.WriteString | xc/config/pswrap/psw.c:1711-1743 | One string and its padding take as many bytes as the offsets count for it, also when a constant length needs no padding |
| RuntimeOffsets.WriteArrays | xc/config/pswrap/psw.c:1682-1693 | Every array starts where those before it end |
| RuntimeOffsets.PadFills | xc/config/pswrap/psw.c:1716-1740 | `~(n + 3) & 3` pad bytes fill a string up to `(n + 3) & ~3` |
| RuntimeOffsets.NothingVaries | xc/config/pswrap/psw.c:663-672 | If nothing made the wrap writable, all lengths on the lists are constants |
| ArgumentValues.AllAssignedIff | xc/config/pswrap/psw.c:1606-1661 | Every object whose value depends on the call is assigned to, if and only if subscripted parameters stand only outside arrays and procedures |
| ArgumentValues.ElementInArray | xc/config/pswrap/psw.c:1566-1603 | An element of an array parameter inside brackets is never assigned to |
| ArgumentValues.ScanParamsAndEmitValues | xc/config/pswrap/psw.c:1606-1661 | Exactly the tokens reached by one of the two passes for some parameter are assigned to |
| ArgumentValues.EmitValueAssignments | xc/config/pswrap/psw.c:1481-1563 | The tokens assigned to for a parameter, at every depth and in order; the flag says whether there are any |
| ArgumentValues.EmitElementValueAssignments | xc/config/pswrap/psw.c:1566-1603 | The second pass finds only the tokens outside arrays and procedures |
| ArgumentValues.ValueTarget | xc/config/pswrap/psw.c:1487-1545 | Which tokens take a length or value of the parameter |
| FontFaces.Serve | xc/extras/X-TrueType/xttfuncs.c:122-499 | Over every sequence of opens (each library call free to fail) and closes: the fonts that are open are those of the ledger, which opens one exactly when every call it needs succeeds; each is on the entry of its own name and number, two share an entry just when they have the same; the engine count, the sum of the reference counts and the number of fonts are equal; the face of an entry is open exactly while its count is positive; keys are unique; and the code converters in use are those of the open fonts and of the failed calls that had found one |
| FontFaces.KeepsAll | xc/extras/X-TrueType/xttfuncs.c:122-499 | The books of entry numbers kept by Serve say the same as a ledger of the open fonts by name and number, kept call by call of the library |
| FontFaces.KeepsServed | xc/extras/X-TrueType/xttfuncs.c:361-499 | So does one request |
| FontFaces.ServeOne | xc/extras/X-TrueType/xttfuncs.c:361-499 | One request keeps the counts in balance and changes the list of open fonts and the keys as requested |
| FontFaces.ServeOpen | xc/extras/X-TrueType/xttfuncs.c:361-481 | An open does so, and a call that fails behind the converter keeps one converter more |
| FontFaces.ServeClose | xc/extras/X-TrueType/xttfuncs.c:483-499 | A close gives back the converter and drops the font from the list |
| FontFaces.Renderer.OpenFont | xc/extras/X-TrueType/xttfuncs.c:361-481 | Succeeds exactly when every call it needs does; a failed call leaves every count as it was and may leave one new entry with no uses, but the code converter stays in use exactly when the face could be had and a converter was found |
| FontFaces.KeepConverter | xc/extras/X-TrueType/xttfuncs.c:386-461 | A call that fails at the instance: no font is open, and one code converter is in use |
| FontFaces.KeepFace | xc/extras/X-TrueType/xttfuncs.c:241-245 | Without memory for a new entry the call fails, the table is unchanged and a face is open |
| FontFaces.LoseTable | xc/extras/X-TrueType/xttfuncs.c:241-251 | A second font of another name whose face properties cannot be read leaves the table dangling |
| FontFaces.Renderer.UseFace | xc/extras/X-TrueType/xttfuncs.c:386-481 | With the face there: the font gets converter, instance and cache, or everything but the converter is given back |
| FontFaces.Renderer.ReuseEntry | xc/extras/X-TrueType/xttfuncs.c:194-275 | An entry that is found is opened again with the new face, or its own face is used and the new one closed |
| FontFaces.Renderer.CloseFont | xc/extras/X-TrueType/xttfuncs.c:483-499 | Takes back exactly what opening the font added |
| FontFaces.Renderer.OpenFace | xc/extras/X-TrueType/xttfuncs.c:156-297 | One use more of the entry of this name and number, or no change to the table; and exactly when a face stays open or the table has been given back by the failure |
| FontFaces.Renderer.OpenHandle | xc/extras/X-TrueType/xttfuncs.c:169-185 | A face is opened, or that of a collection instead of it, or every face opened on the way is closed again |
| FontFaces.Renderer.FindEntry | xc/extras/X-TrueType/xttfuncs.c:190-193 | The first entry with this name and number, or the end of the table when there is none |
| FontFaces.Renderer.CloseFace | xc/extras/X-TrueType/xttfuncs.c:299-319 | One use less; with the last one the face is closed and the entry marked; a bad index changes nothing |
| FontFaces.Renderer.Prepare | xc/extras/X-TrueType/xttfuncs.c:177-211 | The face is closed on every failure, a glyph already made is not |
| FontFaces.Renderer.SetUp | xc/extras/X-TrueType/xttfuncs.c:386-461 | The instance is given back on every failure; the code converter is not |
| FontFaces.Renderer.GiveBack | xc/extras/X-TrueType/xttfuncs.c:474-481 | The failure path takes back the use of the face and of the engine |
| FontFaces.Renderer.Init | xc/extras/X-TrueType/xttfuncs.c:122-136 | The engine is created for the first user only; a failed creation changes nothing |
| FontFaces.Renderer.Deinit | xc/extras/X-TrueType/xttfuncs.c:138-151 | The engine is given back with its last user |
| FontFaces.UseTaken | xc/extras/X-TrueType/xttfuncs.c:299-319 | Taking a use away keeps the counts in balance |
| FontFaces.UseAdded | xc/extras/X-TrueType/xttfuncs.c:277-296 | Adding one does |
| FontFaces.BooksKnow | xc/extras/X-TrueType/xttfuncs.c:187-296 | Whether a face can be had is decided by the keys, the open fonts and the answers of the library alone |
| Getopt.LineParses | xc/extras/rman/getopt.c:35-79 | Every command line written from a list of words (clusters, attached and detached arguments) followed by operands or `--` gives back exactly its options and arguments and leaves optind at the first operand (section 12.2 of IEEE Std 1003.1, Base Definitions) |
| Getopt.WordParses | xc/extras/rman/getopt.c:35-79 | One word is read letter by letter and optind passes over it |
| Getopt.LetterStep | xc/extras/rman/getopt.c:52-78 | One call returns the next letter, with its argument if it takes one |
| Getopt.Step | xc/extras/rman/getopt.c:35-79 | Each call that returns an option or an error makes progress on (words left, characters left) |
| Getopt.Parser.Next | xc/extras/rman/getopt.c:35-79 | The method, with its static position, index, letter and argument, is that step |
| Getopt.Parser.Find | xc/extras/rman/getopt.c:53-61 | The letter is found where it first stands in the option string, and the colon behind it decides whether it takes an argument |
| Getopt.Options | xc/extras/rman/getopt.c:35-79 | Calling until EOF terminates and collects all answers |
| Getopt.TailEnds | xc/extras/rman/getopt.c:44-51 | The options end at the first operand, at a lone dash, or just past `--` |

## Left out

In general:

- Texts of diagnostics, debugging output, signals, and all input and output but the dependencies printed by makedepend and the data written by a wrap.
- Failing `malloc` and fixed buffer sizes (`BUFSIZ`, `MAXFILES`, `MAXDIRS`), except for the face table; integers do not overflow, except where a `World` or `Words` value gives the machine's arithmetic.
- Characters are compared by their code; that `char` may be signed, so that bytes above 127 would come before the others, is modelled in the hash of pswrap only.

makedepend:

- IfExpression.ParseLevel: the value of a character constant and the clamping of a `long` are parameters; an unclosed character constant, whose loop runs off the line, counts as a trap.
- IfTrees.CForm: C's grammar has no lone `=`, assertions or absent operands; they are grouped like `==` and like values.
- DirectiveScanner.Scanner.FindIncludes: takes lines that are split and classified already, so that `getnextline` (continuations, comments, `//`) and the spelling of directives in `deftype` are not part of the model; the guessed-false kinds differ from the false ones only in whether a missing file is warned about, and are the same here.
- DirectiveScanner.Scanner.FindIncludes: which condition holds and which file a name means are arbitrary functions of the history of the run, so the scanner is not tied to the symbol tables of `SymbolLookup`; macro expansion in conditions and in computed includes is behind these functions.
- DirectiveScanner.Scanner.Conditional: setting its flag stands for the jumps `goto doif` and `goto doiffalse`.
- SymbolLookup.UndefineFrom: the loop of `undefine` is written as a recursion over its rounds.
- PathCleanup.RemoveDotDot: the cache `notdotdot` of symbolic links found before is not modelled; it gives the answers of `lstat` while the links stay the same.
- DependencyPrinter.PrintDependencies: starts when the includes of a source file are known and the marks are clear; one file that is reached under two names is two files to makedepend and to the model.
- The search of include directories (`inc_path`), the command line, and the rewriting of the makefile.

pswrap:

- Numeric strings (their encoding belongs to a library that is not part of this model), results and the result table, contexts, and the emitted C text but for the constants of string literals.
- ObjectLayout.LayoutOk: the bodies are sequences, not the `next` links of tokens, and no token occurs twice.
- WrapBody.EmitBody: the arrays of the body have been flattened (`ArrayFlattening`), and the operators that flush results are not appended; lengths that vary may make a short header too short in one call, which TooShortIff does not cover.
- RuntimeOffsets.CallWrap: runs the emitted assignments and writes with one argument for each length; that `sizeof(DPSBinObjGeneric)` is 8 is taken from the back end, and the lengths handed to `FixupOffsets` and `WriteObjSeq` are those of the same call.
- BinaryObjects.Wrap.SetNameTag: counts the names to be asked for; grouping them and acquiring their tags at run time (`ConsNameToken`, `EmitNameTagAcquisition`) is not modelled.
- StringSharing.PlaceLiterals: takes literal names with a backslash only if the scanner's encoding of strings admits them, and so do the procedures of BinaryObjects for the names that they store (user names off); `PlainLength` says what PSWStringLength makes of the others.
- ArgumentValues.ScanParamsAndEmitValues: says which tokens are assigned to, not the text of the value.

X-TrueType:

- SbitBlit.BlitStream: lines padded to a whole number of bytes (`align` > 0, which is what its caller passes); bit-packed and unaligned sources (`align` 0 and -1) are not modelled. Its requirement that the lines fit the target is not checked by the code; `FitsExactly` says when it holds.
- FontFaces.Serve: ends when the face table is dangling, from where on the behaviour of the C program is undefined; glyphs that a failed preparation leaves behind are counted and not bounded.
- Metrics, rendering, the glyph cache, the choice of code converters, and the uninitialised `num_faces`.

Others:

- ConditionVariable.ReachableIsAccounted: a thread has one waiter record, made before its first wait with its semaphore at 0; `xmutex_lock` nests as a critical section does, and a nested wait gives up one level only; destroying a condition variable is not modelled. Liveness (a thread that has its token is scheduled) is up to the system.
- Getopt.LineParses: the value 0 and characters above 127 are not used as option letters; the message for an error is left out.
- The POSIX, Solaris and TIS variants of Xthreads.h, imake, lndir, makestrs, and the font capability parser of X-TrueType.
