# What qdrust's core computes, proved

qdrust runs QD templates: lists of HTTP requests with control tags between them,
expressions in a Jinja dialect, Python regular expressions, and a set of text
codecs. This project models the parts of it where a mistake would be silent, and
proves what they keep.

* **The program compiler and its interpreter.** A flat list of entries with
  `{% if %}`, `{% for %}` and `{% while %}` tags is compiled into blocks
  (`QdProgram`) and the blocks are run (`QdRun` is the meaning, `QdExecutor` the
  interpreter with its context updated in place). `QdMachine` is a second,
  independent meaning: a program counter that jumps between matching tags of the
  flat list. `QdGrammar` and `QdTagText` have the inverse direction, `QdLoops` says what
  the rounds of a loop send, `QdBudget` and `QdWhile` are about the request budget, the
  time bound and the loop limit.
* **Native templates.** `Template` decides which step trees are accepted,
  `TemplateRun` runs them and bounds the time, and `TemplateSteps` says what each kind of
  step does to a run.
* **The inputs of a template.** `HarVariables` lists the names that have to be
  supplied and says when that listing is exact.
* **The translator from Python's regular expressions to Rust's.** `PythonRegex` and
  `RustRegex` are the two lexers as specifications, `RegexTranslator` is the scan,
  `RegexTranslation` says exactly when the token streams are equal, `RegexHazards` has a
  pattern for every way in which they are not, and `RegexConditions` is the check that
  the conditions of a compiled pattern are put to. `RegexRefusals` is a second account of
  what is refused, one character at a time with every shape written out; `RegexConverse`
  is the other direction, from what Rust reads back to what Python reads, and
  `RegexLoose` has a text for each of its exceptions.
* **The rewriter of Python method calls.** `MethodRewriter` is the text scan,
  `MethodDesugar` the tree it stands for, `MethodWalk` the proof that they agree, and
  `MethodParse` a parser that reads the rewritten text back.
* **Shared state.** `LoginLimiter` is the login rate limiter, `SessionManager` the
  browser sessions under every interleaving of their calls, `Cancellation` the
  cancellation token.
* **Codecs.** `Crc32`, `Base32`, `Totp`, `QuotedPrintable`, `Uuencode`, `WordWrap` and
  `FormBody`.

Objects that the program updates in place are classes here, loops over an index or a
growing buffer are methods with loops; each method is proved against a
specification function, and the lemmas are about those functions. `Text` and `Bytes`
hold what the modules share. Strings are sequences of Unicode scalar values and an
index counts characters; `FormBody` works on the UTF-8 bytes of its strings.

What lies outside is a parameter: expression evaluation, HTTP and plugins
(`QdRun.World`), the Unicode character classes, HMAC (`Totp.Hmac`) and lossy UTF-8
decoding (`FormBody.Settles`). A request's answer may depend on every request sent
before it, so it covers cookies and servers with state.

## Where the obvious claim is false

The code is modelled as it is; each of these has a lemma with the exact condition or a
concrete input.

* A `for` tag whose target ends in ` in` is written out in a form that reads back
  differently (`QdTagText.RecompileIffUnambiguous`, with a program in
  `QdTagText.TabbedForIsMisread`), and an empty `else` is dropped
  (`QdGrammar.FlattenCompile`).
* Raising the loop limit is invisible to every run that ends well if no `while` is in
  the program (`QdWhile.RaisingIsInvisible`). A `while` shows it in `loop_length`
  whatever its condition and body are (`QdWhile.LoopLimitIsVisible`), and may fail under
  the larger limit where it ended well under the smaller one
  (`QdWhile.RaisingCanFail`). In a whole tree a `while` may be out of reach, and then it
  does not show either (`QdWhile.BuriedWhileIsInvisible`). A limit of zero skips the loop without looking at
  its condition (`QdWhile.ZeroLimitSkips`).
* A pattern that Python reads is accepted and read alike by Rust exactly when it holds
  no hazard (`RegexTranslation.TranslationKeepsTokens`). The hazards, each with a
  pattern in `RegexHazards`, are: an escape of half a surrogate pair; a backslash before
  a character beyond ASCII; a reference that Python ends before a third digit; in a
  class `[\b]`, a doubled `&` or `~` that does not begin as the end of a range, two dashes
  where Python begins a range or has just ended one, and a range that begins at the `]`
  or the dash the class opens with; and a condition naming a
  group that the scan counts wrongly, because the parenthesis of a numbered condition is
  counted as a group. Behind a negated class of carets alone the scan believes to be in
  the class up to the next `]`; there a class, a brace that is no repetition or has no
  minimum, `\Z`, a reference that looks like an octal escape and a named condition are
  hazards too.
* Nor is every accepted text that Rust reads one that Python reads. Without hazards the
  translator accepts a text and Rust reads it exactly when Python does
  (`RegexConverse.AcceptedExactly`), but for these, each with a text in `RegexLoose`:
  digits in braces behind `\x`, `\u` or `\U`; a backslash before punctuation that means
  itself in the opening of a group, which the translator drops; the flags `U` and `R`, and
  the flag `u` turned off; a condition that is neither a number nor a name; and whatever
  Python refuses behind a negated class of carets alone.
* A wrong number never gets to run: the check of the compiled pattern's groups passes
  exactly when the tokens are Python's and every condition is on a group the pattern has
  (`RegexConditions.CheckedIsReadAlike`). So the pattern is refused, where Python runs it.
* Logins that are still verifying their password raise the limiter's bound
  (`LoginLimiter.FailuresPerInterval`), and for every number of them there is a run that
  reaches it (`LoginLimiter.BoundIsReached`).
* The session cap is checked and used under two holds of the lock
  (`SessionManager.CapIsExceeded`), and a start that is past its check outlives a
  shutdown, which has ended the sweep (`SessionManager.StartOutlivesShutdown`, with a run
  that gets there in `SessionManager.ShutdownIsOutlived`).
* An extraction rule without a pattern takes its name off the list of inputs though it
  stores nothing (`HarVariables.EmptyPatternHidesAnInput`).
* With ten digits the power of ten overflows (`Totp.TenDigits`).
* Quoted-printable with blanks left plain moves a blank behind a later byte
  (`QuotedPrintable.RoundTripIff`, `QuotedPrintable.SpaceIsOvertaken`); on lines that
  need no soft break, exactly when a blank stands before anything but a blank, a line
  feed of text or the end (`QuotedPrintable.InOrderOnShortLines`).
* A uuencoded line round trips for 1 to 223 bytes only, and no bytes come back as three
  zeros (`Uuencode.RoundTripIff`).
* A fragment swallows the form fields added to a query (`FormBody.MergedIff`).

## Model

| member | source | states |
|---|---|---|
| QdProgram.ParseBlocks | crates/qdrust-core/src/qd_har.rs:268-339 | The loop with its cursor and pushed blocks makes of the tags from the cursor on exactly what the recursive grammar does, with the same error at the same place |
| QdProgram.ParseOne | crates/qdrust-core/src/qd_har.rs:275-328 | The same for one request, `if`, `for` or `while`, with its end tag consumed |
| QdProgram.CompileProgram | crates/qdrust-core/src/qd_har.rs:259-265 | Compiling the enabled entries, which `QdGrammar.CompiledRequests` and `QdGrammar.UncheckedIsSkipped` characterise; at top level the cursor always ends at the length of the list |
| QdGrammar.CompilesIffBalanced | crates/qdrust-core/src/qd_har.rs:268-358 | The compiler accepts a list if and only if one scan with an explicit stack finds its control tags balanced |
| QdGrammar.CompileFlatten | crates/qdrust-core/src/qd_har.rs:268-358 | Writing any tree out as tags and compiling gives that tree back |
| QdGrammar.FlattenCompile | crates/qdrust-core/src/qd_har.rs:268-358 | Compiling a list and writing the tree out gives the list back, less the empty `else` tags |
| QdGrammar.CompiledRequests | crates/qdrust-core/src/qd_har.rs:259-265 | The requests of a compiled program, read off its tree in order, are exactly the checked entries that are no tags, in the order of the list |
| QdGrammar.UncheckedIsSkipped | crates/qdrust-core/src/qd_har.rs:62-64 | An unchecked entry put anywhere into a list leaves what is compiled the same |
| QdTagText.ReadWritten | crates/qdrust-core/src/qd_har.rs:291-347 | The text of a tag reads back as that tag, except exactly a `for` whose target ends in ` in` |
| QdTagText.PaddedTag | crates/qdrust-core/src/qd_har.rs:341-347 | White space around a tag and inside its braces changes nothing |
| QdTagText.RecompileIffUnambiguous | crates/qdrust-core/src/qd_har.rs:268-358 | A compiled program, written out as text and compiled again, is the same program if and only if no `for` target ends in ` in` |
| QdTagText.TabbedForIsMisread | crates/qdrust-core/src/qd_har.rs:291-347 | `{% for x in<TAB> in xs %}` compiles to a loop with the target `x in`, and its own text to another loop |
| QdRun.DepthIsRestored | crates/qdrust-core/src/executor.rs:2615-2642 | Leaving a loop gives back the depth that entering it found, and the depth counted from zero, -1 around the outermost loop |
| QdExecutor.ExecutionContext.WithLimits | crates/qdrust-core/src/executor.rs:165-178 | A fresh context has its variables and both limits, and nothing sent or answered yet |
| QdExecutor.Executor.Execute | crates/qdrust-core/src/executor.rs:289-300 | Both limits are lowered to the executor's, and then the run ends in the state and with the error that the meaning of the tree gives |
| QdExecutor.Executor.RunBlocks | crates/qdrust-core/src/executor.rs:448-462 | Blocks run in order up to the first that fails |
| QdExecutor.Executor.RunBlock | crates/qdrust-core/src/executor.rs:464-533 | One block changes the context as its meaning says: branch taken, loop entered and left, iteration limit |
| QdExecutor.Executor.RunFor | crates/qdrust-core/src/executor.rs:504-511 | A `for` over its values ends as the meaning of its rounds says; what that meaning sends in which round is `QdLoops.ForSendsInOrder` |
| QdExecutor.Executor.RunWhile | crates/qdrust-core/src/executor.rs:513-529 | A `while`, with its check before each body and its failure after the last one the limit allows |
| QdExecutor.Executor.RunRequest | crates/qdrust-core/src/executor.rs:589-595 | A request is refused on an empty budget and otherwise costs one, whether it is answered or not |
| QdLoops.ForSendsInOrder | crates/qdrust-core/src/executor.rs:490-511 | A `for` over one request, in a world that answers and changes no variable, sends it once for each item, in the order of the array, the object's keys or the characters, each time with that item under its target, all seven counters, and one more level of depth; the answers come back in that order and no other variable changes |
| QdLoops.SourcesAreLooped | crates/qdrust-core/src/executor.rs:490-503 | The items are those of the variable named by the source, if there is one, and else of the expression |
| QdLoops.LongLoopIsRefused | crates/qdrust-core/src/executor.rs:500-503 | More items than the limit: nothing is sent |
| QdLoops.WhileCounts | crates/qdrust-core/src/executor.rs:513-529 | Each check of a `while` sees the counters of its round, counted up to the limit |
| QdLoops.AnswersReachTheNext | crates/qdrust-core/src/executor.rs:448-462 | The second of two requests is sent with the variables the first one's answer left, both results are kept in order, and after a first one that fails there is no second |
| QdMachine.CompilationPreservesMeaning | crates/qdrust-core/src/qd_har.rs:258-358 | For every list that compiles, every world and every starting state, the program-counter machine on the flat list finishes with the requests, results, variables and error of the compiled tree |
| QdMachine.FinishesOnce | crates/qdrust-core/src/executor.rs:448-533 | and that outcome is the only one |
| QdMachine.RunSegment | crates/qdrust-core/src/executor.rs:448-533 | The same for every segment of the list inside any running loops |
| QdMachine.PastSegment | crates/qdrust-core/src/qd_har.rs:291-325 | Counting tags finds the end of a block exactly where the compiler ends it |
| QdBudget.BlocksAccounted | crates/qdrust-core/src/executor.rs:535-595 | Over any run the budget falls by the requests sent; on success that is the number of results, on a failed request one more, and on the budget's own failure nothing is left |
| QdBudget.BudgetIsExact | crates/qdrust-core/src/executor.rs:289-300 | A run that did not fail on its budget ends the same way under any other budget that covers what it spent, with the difference left over, and fails on the budget under any that does not |
| QdBudget.RunBound | crates/qdrust-core/src/executor.rs:490-529 | A run enters at most size * L^depth blocks, whatever its conditions and sources answer |
| QdWhile.WhileRefinesUnbounded | crates/qdrust-core/src/executor.rs:513-529 | With a limit of at least one, a `while` ends well in a state if and only if the loop without a limit of its own, the loops in its body keeping theirs, ends there at one of its first checks |
| QdWhile.UnboundedEndsOnce | crates/qdrust-core/src/executor.rs:513-529 | That loop ends at no more than one check |
| QdWhile.WhileStopsAtItsLimit | crates/qdrust-core/src/executor.rs:524-528 | If all checks the limit allows hold and their bodies end well, the loop fails with the limit's own error |
| QdWhile.ZeroLimitSkips | crates/qdrust-core/src/executor.rs:513-529 | Under a limit of zero a `while` does nothing but enter and leave the loop |
| QdWhile.RaisingIsInvisible | crates/qdrust-core/src/executor.rs:464-533 | Where no `while` is, a larger limit gives the same outcome, unless the smaller one stopped the run |
| QdWhile.BuriedWhileIsInvisible | crates/qdrust-core/src/executor.rs:471-489 | A `while` in the `else` of a condition that was just found to hold is never reached, so it may be there |
| QdWhile.LoopLimitIsVisible | crates/qdrust-core/src/executor.rs:513-529 | For every `while` and any world, if the condition is denied at the first check under each of two limits, both runs end well with different values in `loop_length` |
| QdWhile.RaisingCanFail | crates/qdrust-core/src/executor.rs:513-529 | and if the first check cannot be evaluated under the larger limit, the run that ended well under the smaller one fails |
| Template.Validate | crates/qdrust-core/src/template.rs:81-96 | A template is accepted if and only if version, name and fields are in order and its tree has 1 to 1000 steps and no list, empty or not, nested deeper than 16 |
| Template.ValidateSteps | crates/qdrust-core/src/template.rs:99-157 | The same from any depth and any count so far, and on success the count has grown by exactly the steps of the tree |
| Template.VerbsAreSpelled | crates/qdrust-core/src/template.rs:114-122 | The verbs are the seven of HTTP, in letters of either case |
| Template.BlankIsAllSpace | crates/qdrust-core/src/template.rs:104-113 | An empty field is one of nothing but white space |
| Template.DelaysAreShort | crates/qdrust-core/src/template.rs:150-152 | A delay is accepted up to five minutes |
| TemplateRun.TemplateExecutor.ExecuteTemplate | crates/qdrust-core/src/executor.rs:337-354 | A refused template changes nothing; an accepted one runs with its defaults filled in below the context's variables, a lowered request budget and the context's own loop limit |
| TemplateRun.TemplateExecutor.FillIn | crates/qdrust-core/src/executor.rs:343-348 | Defaults are inserted only where the context has no variable of that name |
| TemplateRun.TemplateExecutor.RunStep | crates/qdrust-core/src/executor.rs:372-446 | One native step changes the context as its meaning says; what that meaning is for each kind of step is `TemplateSteps` |
| TemplateSteps.StepsInOrder | crates/qdrust-core/src/executor.rs:356-370 | Two lists of steps one behind the other end as the second does from where the first ended well, and as the first where it failed |
| TemplateSteps.ThenIsTaken | crates/qdrust-core/src/executor.rs:407-424 | Where the condition holds, an `if` ends as the steps of `then` do |
| TemplateSteps.OtherwiseIsTaken | crates/qdrust-core/src/executor.rs:407-424 | and where it does not, as those of `otherwise` |
| TemplateSteps.BranchNotTakenIsFree | crates/qdrust-core/src/executor.rs:407-424 | so wherever it stands in a list, the branch not taken has no influence on how the list ends |
| TemplateSteps.ForEachTakesRounds | crates/qdrust-core/src/executor.rs:425-439 | A `for_each` takes its steps once for every item in order with just the item set, and ends where the last round ends or as the first bad round does; over the limit it takes none |
| TemplateSteps.EachSends | crates/qdrust-core/src/executor.rs:425-439 | Over one request it sends it for the items in order, with the item set and every other variable as it was |
| TemplateSteps.RequestIsSent | crates/qdrust-core/src/executor.rs:380-383 | A request step sends its entry with the variables of that moment, costs one and keeps the result |
| TemplateSteps.ExtractStores | crates/qdrust-core/src/executor.rs:384-408 | An extraction stores what it finds under its target and changes nothing else; finding nothing fails exactly when it was required |
| TemplateRun.AcceptedTemplatesEnd | crates/qdrust-core/src/executor.rs:356-446 | An accepted template takes at most 1000 * L^16 steps, and its requests are accounted for like those of a program |
| HarVariables.Variables | crates/qdrust-core/src/qd_har.rs:80-104 | The loops list each name read before it is extracted and not known to the engine, once, where it is first read |
| HarVariables.InOrder | crates/qdrust-core/src/qd_har.rs:94-97 | The listed names are in order of first appearance, hence without duplicates |
| HarVariables.SameNames | crates/qdrust-core/src/qd_har.rs:94-97 | and they are all the names that qualify |
| HarVariables.ListedInOrder | crates/qdrust-core/src/qd_har.rs:80-104 | Of two listed names, the first is read somewhere, unknown and mentioned by no earlier rule, before the second ever is: in an earlier entry, an earlier field of it, or earlier in that field |
| HarVariables.ListedIsOpen | crates/qdrust-core/src/qd_har.rs:80-104 | The listed names are exactly those read anywhere in that way |
| HarVariables.NeededNames | crates/qdrust-core/src/executor.rs:918-950 | Run in order, all reads are defined if and only if the supplied names hold every input and every name of a read after a rule that stored nothing |
| HarVariables.ListingIsExactIff | crates/qdrust-core/src/qd_har.rs:80-104 | The listing is what a run needs, no more and no less, if and only if every such read is of a name that is listed anyway |
| HarVariables.ListingIsExact | crates/qdrust-core/src/qd_har.rs:80-104 | which holds when every rule has a pattern and a name and matches |
| HarVariables.EmptyPatternHidesAnInput | crates/qdrust-core/src/executor.rs:919-925 | and fails for a rule without a pattern |
| RegexTranslator.TranslateFromPython | crates/qdrust-core/src/executor.rs:1785-1966 | The scan with its index, flags, groups and conditions gives the text and the conditions of the step-by-step translation, or its refusal, and gives the pattern itself back when nothing was changed |
| RegexTranslator.TranslateEscape | crates/qdrust-core/src/executor.rs:1804-1860 | The branch of a backslash is one step of the translation |
| RegexTranslator.TranslateGroup | crates/qdrust-core/src/executor.rs:1893-1930 | The branch of a parenthesis is one step, with the group counted or the condition noted; which openings are refused is `RegexRefusals.RefusedExactlyFor` |
| RegexTranslator.TranslateBrace | crates/qdrust-core/src/executor.rs:1931-1954 | The branch of a brace is one step |
| RegexTranslator.AfterCharacter | crates/qdrust-core/src/executor.rs:1861-1891 | The class and class-head flags after a character that is not an escape |
| RegexTranslator.PythonRepetition | crates/qdrust-core/src/executor.rs:2268-2298 | The index loop reads `{m}`, `{m,}`, `{m,n}`, `{,n}` and `{,}` and nothing else, for digit strings of any length |
| RegexTranslation.ExceedsIsGreater | crates/qdrust-core/src/executor.rs:2305-2315 | Comparing digit strings without reading them is comparing the numbers, at any length and with any leading zeros |
| RegexTranslation.Accepts | crates/qdrust-core/src/executor.rs:1785-1966 | The translator refuses no token that Python accepts, but for a condition on a group that it has not counted |
| RegexTranslation.ReadableIsAccepted | crates/qdrust-core/src/executor.rs:1785-1966 | and no pattern that Python reads, unless a negated class of it is nothing but carets |
| RegexTranslation.Follow | crates/qdrust-core/src/executor.rs:1785-1966 | For each token Python reads, the translator writes text from which Rust reads the same token, whatever follows, unless the token is a hazard, and then Rust reads another |
| RegexTranslation.AstrayDiffers | crates/qdrust-core/src/executor.rs:1861-1886 | Nor does Rust read Python's token at a hazard where the scan believes to be in a class that Python has left |
| RegexTranslation.TranslationKeepsTokens | crates/qdrust-core/src/executor.rs:1785-1966 | For every pattern Python reads: it is accepted and the tokens Rust reads off the output are Python's if and only if no token of it is a hazard |
| RegexTranslation.FollowOctal | crates/qdrust-core/src/executor.rs:2213-2247 | An octal escape of up to three digits and at most 0o377 is written as two hexadecimal digits and read as the same character |
| RegexTranslation.FollowBrace | crates/qdrust-core/src/executor.rs:1931-1954 | A repetition keeps its bounds, a missing minimum being zero, and any other brace becomes a literal |
| RegexRefusals.RefusedExactlyFor | crates/qdrust-core/src/executor.rs:1785-1966 | A pattern is refused, and with that reason, exactly for the first of these that an account of escapes, classes and names one character at a time finds: `\N`; three octal digits above 0o377; a letter escape outside Python's list; `(*`; `(?<` without `=` or `!`; a flag group with `a`; one with `-` and no scope; `(?(0)`; a condition on a name not read before; `{m,n}` with the number m above n |
| RegexConverse.AcceptedExactly | crates/qdrust-core/src/executor.rs:1785-1966 | For every text without a hazard and without one of the shapes that Rust alone reads: the translator accepts it and Rust reads the translation, with no group name twice, if and only if Python reads the text, and then the tokens are equal |
| RegexConverse.ConverseFrom | crates/qdrust-core/src/executor.rs:1785-1966 | The same from any place the scan and both lexers reach together |
| RegexConverse.HeaderStops | crates/qdrust-core/src/executor.rs:2128-2179 | An opening of a group that Python does not read is refused, or copied so that Rust refuses it, with those exceptions |
| RegexConverse.ConditionStops | crates/qdrust-core/src/executor.rs:2097-2121 | So is a condition |
| RegexLoose.BracedEscapeIsRust | crates/qdrust-core/src/executor.rs:1844-1860 | `\x{41}` is accepted and read by Rust, and Python refuses it |
| RegexLoose.EscapedHeaderIsRust | crates/qdrust-core/src/executor.rs:1837-1843 | `(?\:a)` loses its backslash and becomes a group |
| RegexLoose.RustFlagIsRust | crates/qdrust-core/src/executor.rs:2153-2179 | `(?U)` is accepted |
| RegexLoose.UnicodeOffIsRust | crates/qdrust-core/src/executor.rs:2153-2179 | and so is `(?-u:a)` |
| RegexLoose.ExpressionIsRust | crates/qdrust-core/src/executor.rs:1926-1928 | `(?(.)a)` is left to the second engine, which reads it |
| RegexLoose.BehindCaretsIsRust | crates/qdrust-core/src/executor.rs:1861-1884 | `[^^](?<n>)` is accepted with the group that Python does not read |
| RegexHazards.SurrogateIsMisread | crates/qdrust-core/src/executor.rs:1852-1860 | Python reads `\ud800` as a character and Rust refuses it |
| RegexHazards.EscapeBeyondAsciiIsMisread | crates/qdrust-core/src/executor.rs:1852-1860 | Python reads a backslash and `é` as the letter and Rust refuses the pair |
| RegexHazards.LongReferenceIsMisread | crates/qdrust-core/src/executor.rs:2208-2247 | `\108` is group 10 and an `8` to Python alone |
| RegexHazards.BackspaceIsMisread | crates/qdrust-core/src/executor.rs:1852-1860 | `[\b]` is a backspace to Python alone |
| RegexHazards.DoubledAmpersandIsMisread | crates/qdrust-core/src/executor.rs:1861-1886 | `[a&&b]` has three members to Python and is an intersection to Rust |
| RegexHazards.DoubledDashIsMisread | crates/qdrust-core/src/executor.rs:1861-1886 | `[+--]` is a range up to a dash to Python and a difference to Rust |
| RegexHazards.DashesBehindRangeAreMisread | crates/qdrust-core/src/executor.rs:1861-1886 | and in `[a-b--]` the two dashes are members to Python |
| RegexHazards.RangeFromBracketIsMisread | crates/qdrust-core/src/executor.rs:1861-1891 | `[]-a]` is a range to Python and three members to Rust |
| RegexHazards.RangeFromDashIsMisread | crates/qdrust-core/src/executor.rs:1861-1891 | and so is `[--a]` |
| RegexHazards.LateNameIsMisread | crates/qdrust-core/src/executor.rs:1905-1925 | `()(?(1))(?P<x>)(?(x))` gets a wrong number for its last condition |
| RegexHazards.CaretClassIsMisread | crates/qdrust-core/src/executor.rs:1861-1886 | `[^^]{` is a class and a brace to Python, is copied as it is, and is refused by Rust |
| RegexHazards.ClassBehindCaretsIsMisread | crates/qdrust-core/src/executor.rs:1870-1877 | In `[^^][a]` the second class is escaped |
| RegexHazards.OpenRepetitionBehindCaretsIsMisread | crates/qdrust-core/src/executor.rs:1861-1886 | `[^^]{,2}` gets no minimum |
| RegexHazards.TextEndBehindCaretsIsMisread | crates/qdrust-core/src/executor.rs:1807-1813 | `[^^]\Z` keeps an escape that Rust does not know |
| RegexHazards.ReferenceBehindCaretsIsMisread | crates/qdrust-core/src/executor.rs:2213-2236 | In `()[^^]\1` the reference becomes a character |
| RegexHazards.ConditionBehindCaretsIsMisread | crates/qdrust-core/src/executor.rs:1861-1886 | `(?P<x>)[^^](?(x))` keeps a condition by name |
| RegexHazards.UncountedNameIsRefused | crates/qdrust-core/src/executor.rs:1905-1911 | `[^^](?P<x>)](?(x))` is refused for a group that Python has read |
| RegexConditions.CheckConditions | crates/qdrust-core/src/executor.rs:1995-2022 | The loop complains of the first condition whose group is missing or has another name, and of none exactly when all fit |
| RegexConditions.NamesAreDistinct | crates/qdrust-core/src/executor.rs:1893-1897 | No pattern that Python reads has two groups of one name |
| RegexConditions.CheckedIsReadAlike | crates/qdrust-core/src/executor.rs:1664-1682 | For every pattern Python reads whose only hazards are wrong numbers: the translation has Python's groups, and the check passes if and only if Rust reads all of Python's tokens and every condition is on a group that the pattern has |
| MethodRewriter.RewriteMethods | crates/qdrust-core/src/expression.rs:1865-1962 | The scan with its index, growing output and current primary is the step-by-step rewriting |
| MethodRewriter.RewriteGroup | crates/qdrust-core/src/expression.rs:1891-1909 | A group is copied with its interior rewritten first |
| MethodRewriter.RewriteDot | crates/qdrust-core/src/expression.rs:1910-1947 | A dot behind a primary is a rewritten call, an attribute, or neither |
| MethodWalk.RewriteIsDesugaring | crates/qdrust-core/src/expression.rs:1865-1962 | For every expression tree, rewriting its text gives the text of the tree with every call of a Python method replaced by the helper call, at all depths, nothing else changed, and a change is reported exactly when there is such a call |
| MethodWalk.RewriteTwice | crates/qdrust-core/src/expression.rs:1865-1962 | Rewriting the result again changes nothing |
| MethodWalk.AnyReadingAgrees | crates/qdrust-core/src/expression.rs:1865-1962 | If a text is the print of two trees, their desugarings print alike |
| MethodWalk.BlanksBeforeBracket | crates/qdrust-core/src/expression.rs:1910-1947 | Blanks between a method's name and its bracket change nothing: the call is rewritten as without them |
| MethodWalk.BracketsAreGroups | crates/qdrust-core/src/expression.rs:1891-1909 | Round, square and curly brackets around an expression all have it rewritten inside |
| MethodWalk.DotBeginsAfresh | crates/qdrust-core/src/expression.rs:1910-1947 | A dot that no name follows is no attribute: what stands behind it begins a new primary |
| MethodParse.ParsesIffPrinted | crates/qdrust-core/src/expression.rs:1865-1962 | A parser reads a text as a tree if and only if the tree is tidy, its chain of operators flat and every operator one word or sign, and prints as that text; so printing is injective on tidy trees |
| MethodParse.RewriteThenParse | crates/qdrust-core/src/expression.rs:1865-1962 | For every text that parses, parsing the rewritten text gives the desugaring of the parsed text |
| MethodParse.OnlyTheDesugaring | crates/qdrust-core/src/expression.rs:1865-1962 | No other tidy tree prints as the rewritten text |
| MethodParse.DesugarIsTidy | crates/qdrust-core/src/expression.rs:1910-1947 | Desugaring leaves tidy trees tidy |
| MethodParse.UpperIsCalled | crates/qdrust-core/src/expression.rs:1910-1947 | `a.upper()` becomes `__qdm_call(a, "upper")` under QD's own list of methods |
| MethodWalk.Walk | crates/qdrust-core/src/expression.rs:1865-1962 | Wherever a printed expression stands in a text, the scan gets behind it having written its desugaring, with the current primary where it should be |
| MethodDesugar.DesugarIsClean | crates/qdrust-core/src/expression.rs:1910-1947 | One pass over a tree leaves no method call behind and keeps it well formed |
| MethodDesugar.GroupEnds | crates/qdrust-core/src/expression.rs:2053-2082 | The bracket counter finds the end of a printed group, whatever strings and brackets are inside |
| MethodDesugar.StringEnds | crates/qdrust-core/src/expression.rs:2034-2049 | The string scanner stops behind the closing quote, whatever is escaped |
| LoginLimiter.LoginRateLimiter.Allowed | crates/qdrust-server/src/auth.rs:42-53 | Whether a key may try, and that an expired window is dropped |
| LoginLimiter.LoginRateLimiter.RecordFailure | crates/qdrust-server/src/auth.rs:55-69 | A failure opens, restarts or fills the key's window and leaves other keys alone |
| LoginLimiter.LoginRateLimiter.RecordSuccess | crates/qdrust-server/src/auth.rs:71-73 | A success drops the key's window and no other |
| LoginLimiter.OtherKeysDoNotMatter | crates/qdrust-server/src/auth.rs:42-73 | After any run the window of a key and every answer about it are what its own events alone would give |
| LoginLimiter.RunsAreBounded | crates/qdrust-server/src/auth.rs:42-73 | What every run between two successes keeps: how the window in the map stands to the failures recorded so far |
| LoginLimiter.InFlightCounts | crates/qdrust-server/src/api.rs:1167-1213 | In flight are the logins that were let through and have not ended, with a failure or without |
| LoginLimiter.FailuresPerInterval | crates/qdrust-server/src/auth.rs:42-69 | With at most k logins between their check and their record, some of which may never record anything, every half-open interval of length `window` holds at most 2 * (max_attempts - 1 + k) - 1 failures; for logins one at a time that is 2 * max_attempts - 1 |
| LoginLimiter.BoundIsReached | crates/qdrust-server/src/auth.rs:42-69 | For every limit, every k and every window longer than one tick of the clock there is a run with at most k logins in flight that reaches the bound |
| LoginLimiter.SegmentIsTracked | crates/qdrust-server/src/api.rs:1167-1213 | From a success of a key to its next one, the map holds for it what such a run of its logins says |
| LoginLimiter.SegmentIsMoves | crates/qdrust-server/src/api.rs:1167-1213 | and every sequence of calls for a key without a success is such a run |
| LoginLimiter.SuccessClears | crates/qdrust-server/src/auth.rs:71-73 | and it starts from nothing |
| SessionManager.BrowserSessionManager.EnsureConnected | crates/qdrust-plugin-browser/src/manager.rs:115-148 | The first call starts the sweep and no other does |
| SessionManager.BrowserSessionManager.HasRoom | crates/qdrust-plugin-browser/src/manager.rs:182-189 | The check makes the machine's step, after which the task is among those starting exactly when there was room |
| SessionManager.BrowserSessionManager.Insert | crates/qdrust-plugin-browser/src/manager.rs:203-205 | The insertion makes the step of a task that is starting, and keeps the machine's invariant |
| SessionManager.BrowserSessionManager.End | crates/qdrust-plugin-browser/src/manager.rs:211-220 | Ending a session is a run of the machine that takes and gives back the lock, and reports a session that is not there |
| SessionManager.BrowserSessionManager.WithSession | crates/qdrust-plugin-browser/src/manager.rs:229-246 | An operation is a run that takes both locks and gives them back; its session's last use becomes the time of the call, and neither the time it was created nor anything else changes |
| SessionManager.BrowserSessionManager.Sweep | crates/qdrust-plugin-browser/src/manager.rs:157-174 | Collecting and removing is a run of the machine's sweep, and leaves exactly the sessions within both limits |
| SessionManager.BrowserSessionManager.Shutdown | crates/qdrust-plugin-browser/src/manager.rs:249-260 | A shutdown is a run of the machine that leaves no session and no sweep |
| SessionManager.ReachableIsSound | crates/qdrust-plugin-browser/src/manager.rs:150-260 | In every reachable state a page lock is held just by the running operation, whose session is in the map, and a sweep has exactly the expired sessions left to remove |
| SessionManager.TimesAreKept | crates/qdrust-plugin-browser/src/manager.rs:33-52 | In every reachable state a session carries the time of its latest insertion and the time of its latest use or insertion |
| SessionManager.SweepGoesByTheTimes | crates/qdrust-plugin-browser/src/manager.rs:157-174 | so a sweep leaves a session if and only if its last use is at most idle_ttl ago and its insertion at most max_lifetime, however often it was used |
| SessionManager.OperationKeepsItsTab | crates/qdrust-plugin-browser/src/manager.rs:229-246 | The session an operation runs on is never removed under it, and its page lock is free whenever it is asked for |
| SessionManager.NothingMovesDuringAnOperation | crates/qdrust-plugin-browser/src/manager.rs:229-246 | Until an operation ends nothing in the map changes but the holder of its own page lock |
| SessionManager.RemovalHasACause | crates/qdrust-plugin-browser/src/manager.rs:150-260 | A session goes only by `end`, by a shutdown, or by a sweep that found it past a limit, and never while an operation runs |
| SessionManager.SweepLeavesTheLive | crates/qdrust-plugin-browser/src/manager.rs:150-177 | However a sweep interleaves with the other calls, it leaves exactly the sessions within both limits when it began |
| SessionManager.SessionsAreBounded | crates/qdrust-plugin-browser/src/manager.rs:180-208 | With at most k starts in flight there are never more than max_sessions - 1 + k sessions |
| SessionManager.CapIsExceeded | crates/qdrust-plugin-browser/src/manager.rs:180-208 | and for every cap and every k there is a run that reaches that number |
| SessionManager.StartsAreCounted | crates/qdrust-plugin-browser/src/manager.rs:180-208 | The starts in flight are those that found room and have neither failed nor inserted their session |
| SessionManager.ConnectedFirst | crates/qdrust-plugin-browser/src/manager.rs:115-148 | Before the browser is connected nothing starts, and the sweep is there exactly from then on |
| SessionManager.ShutdownClears | crates/qdrust-plugin-browser/src/manager.rs:249-260 | When a shutdown returns there is no session and no sweep, but the starts in flight go on |
| SessionManager.StartOutlivesShutdown | crates/qdrust-plugin-browser/src/manager.rs:180-260 | The session such a start inserts is then removed by nothing but `end` or another shutdown |
| SessionManager.ShutdownIsOutlived | crates/qdrust-plugin-browser/src/manager.rs:180-260 | and a run from the beginning gets there, wherever one session is allowed |
| SessionManager.StragglerWaits | crates/qdrust-plugin-browser/src/manager.rs:180-260 | which is a run of four events, after which the insertion is possible |
| Cancellation.NoLostWakeUp | crates/qdrust-core/src/executor.rs:42-55 | In every interleaving of any cancels and waiters: once a cancel has finished every blocked waiter is ready to go on, and none returns before a cancel has set the flag |
| Cancellation.LaterWaitersReturn | crates/qdrust-core/src/executor.rs:49-55 | A waiter that loads the flag after that does not block |
| Cancellation.CallsProceed | crates/qdrust-core/src/executor.rs:42-55 | Each call goes through its steps in order and is never held up, but for a blocked waiter |
| Cancellation.SwappedLosesTheWakeUp | crates/qdrust-core/src/executor.rs:50-54 | Loading the flag before creating the notification would lose a wake-up |
| Crc32.Compute | crates/qdrust-core/src/expression.rs:3638-3656 | The table-driven loop computes the division of the whole message, one bit at a time, by the reflected polynomial 0xEDB88320 |
| Crc32.TableEntry | crates/qdrust-core/src/expression.rs:3640-3650 | A table entry is the remainder of its index after eight steps |
| Crc32.PolynomialHas | crates/qdrust-core/src/expression.rs:3638-3650 | The reflected constant is the polynomial of ISO 3309, exponent by exponent |
| Crc32.LowAndHigh | crates/qdrust-core/src/expression.rs:3653 | Eight steps are a table look-up of the lowest byte added to the rest of the register |
| Crc32.BurstsAreDetected | crates/qdrust-core/src/expression.rs:3638-3656 | Two messages that differ within at most four consecutive bytes have the same CRC only if they are equal |
| Crc32.CheckedMessagesAgree | crates/qdrust-core/src/expression.rs:3638-3656 | A message followed by its own CRC has one and the same CRC whatever it says |
| Base32.DecodeBase32 | crates/qdrust-core/src/totp.rs:71-100 | The 32-bit shift register, old bits and all, decodes as cutting one unbounded bit string into groups of five and eight, with the same errors |
| Base32.DecodesIff | crates/qdrust-core/src/totp.rs:71-100 | Exactly the secrets of at least two characters of the alphabet, once cleaned, are keys |
| Base32.RoundTrip | crates/qdrust-core/src/totp.rs:71-100 | However the encoding of section 6 of RFC 4648 is shown, with spaces, hyphens, either case and any number of trailing `=`, it decodes to the key |
| Base32.AlphabetOrder | crates/qdrust-core/src/totp.rs:84-88 | The letters and their values are those of section 6 of RFC 4648 |
| Totp.ComputeCode | crates/qdrust-core/src/totp.rs:25-49 | Each refusal under exactly its condition; for 6 to 9 digits the text is exactly that many decimal digits and reads as the truncated number modulo the power of ten; with 10 digits arithmetic overflows |
| Totp.CounterReads | crates/qdrust-core/src/totp.rs:35-37 | The eight bytes that are hashed are the counter in base 256, the highest first, for every 64-bit counter |
| Totp.AlgorithmNames | crates/qdrust-core/src/totp.rs:36-41 | The three algorithm names are known in letters of either case, and no other name is |
| Totp.AssembledIsTruncated | crates/qdrust-core/src/totp.rs:42-46 | The window of four bytes lies within every digest, and the shifts give the 31-bit number of section 5.3 of RFC 4226 |
| Totp.PaddedShows | crates/qdrust-core/src/totp.rs:48 | Zero padding prints a number below 10^n with exactly n digits |
| Totp.TenDigits | crates/qdrust-core/src/totp.rs:47 | With wrapping arithmetic a code of ten digits is right if and only if the truncated number is below 1410065408 |
| QuotedPrintable.Encode | crates/qdrust-core/src/expression.rs:3551-3596 | The loop with its output, line length and pending blanks writes the tokens of the encoder |
| QuotedPrintable.FlushPending | crates/qdrust-core/src/expression.rs:3555-3569 | One pending blank is escaped, several are written as they are |
| QuotedPrintable.PlainBytes | crates/qdrust-core/src/expression.rs:3570-3592 | Written as they are: printed ASCII but for `=`, and a carriage return of text; everything else is escaped |
| QuotedPrintable.LineFeeds | crates/qdrust-core/src/expression.rs:3570-3578 | A line feed of text ends the line, one of data is escaped |
| QuotedPrintable.BlanksAlone | crates/qdrust-core/src/expression.rs:3555-3569 | One blank alone is escaped, a longer run is not |
| QuotedPrintable.Decode | crates/qdrust-core/src/expression.rs:3599-3635 | The index loop reads escapes, soft breaks and everything else token by token |
| QuotedPrintable.EscapesDecode | crates/qdrust-core/src/expression.rs:3599-3635 | What `=` and two characters stand for, whatever follows: nothing at a line end, the byte of two hexadecimal digits, one digit behind a `+`, and else themselves |
| QuotedPrintable.TokensAreRead | crates/qdrust-core/src/expression.rs:3551-3635 | Whatever the flags, decoding reads the encoder's tokens as they are |
| QuotedPrintable.RoundTripIff | crates/qdrust-core/src/expression.rs:3551-3635 | Decoding undoes encoding if and only if no byte is written while blanks before it are pending |
| QuotedPrintable.InOrderOnShortLines | crates/qdrust-core/src/expression.rs:3570-3596 | On lines that need no soft break that is: if and only if every blank stands before a blank, a line feed of text or the end |
| QuotedPrintable.RoundTrip | crates/qdrust-core/src/expression.rs:3551-3635 | The round trip holds for every byte string when blanks are quoted, as text or not |
| QuotedPrintable.SpaceIsOvertaken | crates/qdrust-core/src/expression.rs:3579-3592 | and not for a space before a letter when they are not |
| QuotedPrintable.QuotedLinesFit | crates/qdrust-core/src/expression.rs:3551-3596 | With blanks quoted no line is longer than 76 bytes, as section 6.7 of RFC 2045 asks |
| Uuencode.UuencodeLine | crates/qdrust-core/src/expression.rs:3505-3522 | The line with its length character, which overflows from 224 bytes on, checked or wrapping |
| Uuencode.EncodeBody | crates/qdrust-core/src/expression.rs:3511-3519 | The loop over chunks of three bytes |
| Uuencode.UudecodeLine | crates/qdrust-core/src/expression.rs:3525-3548 | The loop over groups of four characters, filled up with zeros and cut to the length |
| Uuencode.CharactersRead | crates/qdrust-core/src/expression.rs:3529-3535 | A character below the alphabet counts as its first, one above it as its last, and one beyond ASCII not at all |
| Uuencode.CatIsShown | crates/qdrust-core/src/expression.rs:3505-3522 | The line of `Cat` is `#0V%T` |
| Uuencode.BodyDecodes | crates/qdrust-core/src/expression.rs:3505-3548 | The body of any length decodes to the data and zeros up to a multiple of three |
| Uuencode.LineDecodes | crates/qdrust-core/src/expression.rs:3505-3548 | What comes back of a line of any length, under both kinds of arithmetic |
| Uuencode.RoundTripIff | crates/qdrust-core/src/expression.rs:3505-3548 | A line round trips if and only if it has 1 to 223 bytes, or arithmetic wraps and it has one of 32 lengths just below 2^32 |
| WordWrap.Wordwrap | crates/qdrust-core/src/expression.rs:2180-2208 | The two loops over words and pieces produce the lines of the greedy layout, joined |
| WordWrap.WrappingKeepsText | crates/qdrust-core/src/expression.rs:2180-2208 | The characters that are not white space are kept in order, and with long words broken no line is longer than the width |
| WordWrap.LinesFit | crates/qdrust-core/src/expression.rs:2185-2199 | Without breaking, a longer line is a single long word |
| WordWrap.GreedyIsOptimal | crates/qdrust-core/src/expression.rs:2180-2208 | When no word is longer than the width, no division of the words into lines that fit has fewer lines |
| WordWrap.LinesAreADivision | crates/qdrust-core/src/expression.rs:2180-2208 | and the lines are such a division, words joined by single spaces |
| FormBody.EncodingKeepsFields | crates/qdrust-core/src/executor.rs:1284-1310 | Parsing an encoded form body gives the fields of the body, and encoding twice is encoding once |
| FormBody.FormBytes | crates/qdrust-core/src/executor.rs:1312-1319 | In a form the printed ASCII characters but `&`, `=`, `?`, `#`, `%` and `+` stay, and every other byte, all from 128 on among them, becomes `%` and two upper-case hexadecimal digits |
| FormBody.QueryBytes | crates/qdrust-core/src/executor.rs:1335-1343 | In a query only letters and digits stay |
| FormBody.MergeFormIntoQuery | crates/qdrust-core/src/executor.rs:1323-1346 | The loop appends the encoded fields behind the right separators |
| FormBody.MergedIff | crates/qdrust-core/src/executor.rs:1323-1346 | The query pairs of the result, read as section 5.1 of the WHATWG URL Standard says, are the URL's followed by the form's if and only if the URL has no fragment or the form no field |

## Left out

- RegexTranslation.TranslationKeepsTokens: compares token streams; what the engines then do with the tokens is not modelled. The second engine, which stands in where the linear one refuses, is modelled by the constructs it adds, not by its own reading of the rest.
- Comments `(?#...)`, the inline flags `x`, `a` and `L`, named characters `\N{...}` and repetition counts too large for Python are not read by `PythonRegex`; whether the ends of a range are single characters in order and whether a referenced group exists is not checked by either lexer.
- RegexConverse.AcceptedExactly: takes the second engine to read every letter escape and every expression as a condition, as it is not known which it reads; and where Python stops at one of the excepted shapes it does not say whether Rust goes on.
- RegexConditions.CheckedIsReadAlike: leaves out patterns with another hazard than a wrong number, as such a pattern may have other groups once compiled.
- MethodWalk.RewriteIsDesugaring: is about one layout of an expression (single spaces around binary operators, none before a bracket but in `MethodWalk.BlanksBeforeBracket`) and expressions without filters, because the tree has no place for layout.
- HarVariables.ListingIsExactIff: leaves out the variable in which the runner keeps the cookie header, entries that are disabled or under control tags, and unchecked headers.
- LoginLimiter.FailuresPerInterval: takes the clock as monotone integers and each call's reading of it as made under the lock.
- SessionManager: what a browser does; pages, navigation and the connection are events that may fail.
- Cancellation: takes as given that a notification reaches every future created before it.
- FormBody: the URL parser in front of the query string and the exact result of lossy decoding; only that decoding its own result changes nothing is used.
- Totp: the hash functions; only the sizes of their digests are used.
- TemplateRun: building a request entry from a step and reading a response with a selector are parameters; a delay takes no time.
- The order in which refusals of a native template are found is not stated, only which templates are refused.
- QdRun: observers, log events and error texts; an error is the kind of failure.
- Template rendering, `rewrite_percent`, `rewrite_literal_lists`, `python_split`, floating-point formatting, HTTP, DNS, proxies, cookies and certificates, the plugins' string tools, configuration, mail and the user interface.
