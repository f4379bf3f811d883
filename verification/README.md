# Eta: a verified model of the reader, expander, linker and package resolver

Eta is a Scheme-like language. This project models the parts of it in which a mistake is hardest to
see, and proves what they are for.

**Module linker** (`ImportGraph`, `LinkSpec`, `ImportLaws`, `ModuleForms`, `ModuleLinker`). A three-state
depth-first search orders the modules; import clauses then fill one table per module. The hash maps
are iterated in any order. The class `ModuleLinker` is proved to succeed exactly when a recursive
specification over the import graph does, and to compute exactly the specification's tables, so
neither the outcome nor the tables depend on iteration order. `ImportLaws` says by membership which
local name each kind of clause brings under which exported name, and lifts that to the origins of a
linked module; it also gives the text that each clause and module body reads back from. A reported
cycle is a real one, every other error names a real fault, and every recorded origin names a
definition.

**Expander** (`Expander` to `ExpansionMeaning`). Derived forms and quasiquote become core forms.
Programs are given a direct meaning (`SourceMeaning`, after R7RS-small sections 4.2.1, 4.2.2, 4.2.4,
4.2.8 and 5.3.2) and core programs one of their own (`CoreMeaning`), both with a store, assignment,
procedures and bounded fuel. The main theorem, `ExpansionPreservesMeaning`, says that whatever core
program the expander's output text can be read as, running it gives what the source program means:
the same kind of outcome, related values, the same effects on the user's locations. It is a chain:
the output is the text of a core program in the relation `Desugars` (`ExpansionOfForms`), that text
can be read in one way only because gensyms are fresh (`CoreNames`, `Spelling`), and related programs
run alike (`Relation`, `CoreSteps`, `KeyTests`, `Bindings`, `Simulation`). `Acceptance` and `NameChecks`
say when there is an output at all: a program is accepted exactly when its binders are unreserved and
distinct and no body is missing, at every depth limit from four times its size on. `Idempotence`
proves what the handlers that expand a subtree twice rely on: a second expansion gives the text back
exactly when the depth limit is at least the text's height. `ExpanderLoops` is the expander as the
object it is in the source, with its depth, its gensym counter, a method for every handler and the
loops over forms, formals, bindings, clauses and template elements; it refines the functions the
proofs are about. `Toplevel` carries the chain to module bodies: sequences of definitions, in both
spellings, and expressions, down to the locations of the names they define. `OddForms` has the laws
of the forms outside that language, and of the forms that are refused.

**syntax-rules** (`SyntaxRules`, `SyntaxRulesInversion`, `SyntaxText`, `SyntaxSpelling`, `Hygiene`).
Texts are read as exactly the patterns and templates they spell. It is decided for every linear
pattern when a match describes its input exactly, and when matching and instantiation undo each other,
down to the text of the pattern. `Hygiene` is
about the names a template introduces: an instantiation is the template filled in by a plain
substitution that gives each of them one symbol, different from all others.

**Package pipeline** (`TomlText`, `Lockfile`, `Manifest`, `ResolveSpec`, `Resolver`, `Pipeline`, the
two `RoundTrip` files, `Comments`, `ManifestLaws`, `LockfileLaws` and `ResolveLaws`). Resolution
succeeds exactly on consistent worlds and returns exactly what is reachable; closure makes the lockfile lossless; manifest validation makes its text unambiguous;
sorting makes the reading exact. Together: parsing the written lockfile of any resolved graph gives
that lockfile, order included. `Comments` proves that comments, white space and blank lines change
nothing, in any text; the three files of laws say what the formats mean beyond what is written in
them.

**Reader** (`Numerals`, `Datums`, `DatumGrammar`, `DatumWriting`, `DatumSkipping`, `Parser`, `Utf8`,
`StringLiterals`, `StringGrammar`, `StringErrors`, `BlockComments`). The recursive-descent parser
inverts unparsing in both directions, and every readable datum reads back from tokens that a function
on data alone gives it; the depth-counting "skip one datum" stops where the parser stops; accepted strings
are shortest-form UTF-8; hex escapes are decided by their exact value without 32-bit overflow.

**Two smaller algorithms**: quoting a Windows command line (`WindowsArgs`) and the search for a path
from a GC root (`HeapPaths`).

## How it is modelled

* Code that works by changing things in place is a class or a method with a loop here too; each is
  proved against a function, and the theorems are about that function.
* A hash map's iteration order is a choice the verifier leaves open (`:|`), or, in `SyntaxRules`, a
  parameter (`Context.first`).
* `std::sort` is a method whose contract is "a sorted permutation"; where ties could make the order
  visible, they are proved absent.
* The file system is a finite map from canonical keys to manifests, and dependency location is the
  function `Locate`. Random session identifiers are parameters; gensym counters are threaded through.
* Integers that can overflow in the source are guarded here as they are there: the byte literal's
  multiplication, the 32-bit accumulation of hex escapes, the 64-bit range of fixnums.
* Floating-point conversion is the parameter `isReal`; equality of floating-point data is the
  parameter `sameReal`.

## What turned out false

* **Windows arguments survive for every program name.** They do exactly when the name is safe: no
  blank follows an odd number of its quotes and the quotes pair up (`ArgumentsSurvive`). Every name
  without quotes is safe, which is every name a Windows path can have.
* **A named let means what R7RS says.** The inits are expanded into the scope of the loop's name: a
  named let desugars exactly as `(letrec ((loop (lambda (name ...) body ...))) (loop init ...))` does
  (`NamedLetIsLetrec`). So the output of every program runs as the program with its named lets written
  out that way means (`ExpansionMeansUnlooped`), and as the program itself means where no loop name is
  free in the inits (`Uncaptured`, required by `ExpansionPreservesMeaning` and by nothing that is about
  the output text). `(let car ((x car)) x)` is accepted and goes wrong (`NamedLetCapturesItsInits`).
* **Expanding twice always succeeds.** It does exactly when the depth limit is at least the height of
  the first output, a function of its text (`ExpandingTwice`, `TextHeight`), and `cond`, whose clauses
  are expanded in a loop at one depth, makes outputs of any height (`CondOutgrowsTheLimit`).
  `((and if) 1 2)` shows that an operator may expand to a keyword, after which a second expansion does
  something else (`OperatorBecomesKeyword`): that input is no program of the language (`Shaped`), which
  is sufficient for the rest and not necessary.
* **`cond` expands to core forms.** A clause `(test => receiver)` becomes a `let` that is not expanded
  (`ArrowClause`), and a clause with only a test has its test in the output twice, once as written
  (`TestOnlyClause`): both statements give the whole output, for all clauses around them.
* **Quasiquote keeps what is quoted inside it.** A quote in a template is returned as code, so that
  evaluation drops it (`QuoteInTemplate`), and of `k` quasiquotes around `j` unquotes the output keeps
  the unquotes and none of the quasiquotes (`BalancedTower`, `ShallowTower`, `DeepTower`).
* **Skipping accepts what parsing accepts.** What parses is skipped alike. What is skipped parses
  exactly when the tokens passed are those of one permitted tree (`SkippedParsesIff`); `( ] )` is
  skipped and not parsed (`SkippingAcceptsMore`).
* **The decoder takes only shortest forms.** What it takes is overlong exactly when it starts with E0
  and a second byte below A0, or with F0 and a second byte below 90 (`OverlongIsAccepted`); what is
  written back is in shortest form all the same.
* **A rename clause renames all names at once.** Its renames are made one after another. A clause that
  renames no name twice is accepted exactly when every new name is free in its turn, and then it is
  the simultaneous renaming (`RenamesOnceAccepted`); so it cannot swap two names
  (`RenamesCannotSwap`). A clause that renames one name twice can (`RepeatedRenameSwaps`); what any
  clause needs to be accepted is `RenamesInTurn`.
* **A resolved package graph is acyclic.** Its edges are the edges between the manifests
  (`EdgesAreKept`), so it has a cycle exactly when some manifest reachable from the root leads back to
  itself (`CyclicIffLoops`); a package that depends on itself is an instance
  (`SelfDependencyResolves`). The cycle error is a name clash: unless a locator passed it on, two
  manifests share the name that closes the reported cycle (`Justified`).
* **Matching and instantiating gives the input back.** The count of every outer ellipsis is taken from
  one variable, whichever the hash map yields first, and values below two ellipses are not kept. So it
  does exactly when the outer ellipses took equally many elements, none if they have no variables, and
  the ellipses below them none, which `Survives` reads off the pattern and the input
  (`RoundTripIffSurvives`, and `TextUndoesItself` for the pattern's text). `(1 ...)` on `(1)` fails
  (`EllipsisWithoutVariables`), and `((a ...) (b ...))` on two lists of different lengths
  (`TwoListsSurvive`). A match describes its input exactly where no variable is under an ellipsis that
  is itself repeated (`MatchIsExact`, `Unnested`); `((x ...) ...)` keeps nothing of what was in the
  lists (`NestedValuesAreLost`).

Where code and comment disagree the code is followed. The comment over `findPaths` promises up to
`MAX_PATHS` paths; the code marks objects as visited when they are queued and so reports at most one.

## Model

| member | source | states |
|---|---|---|
| `ImportGraph.CycleDetector.Visit` | eta/core/src/eta/reader/module_linker.cpp:181-207 | success lists the name, keeps every listed name after all its imports, and adds only names reachable from it; failure reports a real cycle |
| `ImportGraph.CycleDetector.VisitImports` | eta/core/src/eta/reader/module_linker.cpp:198-202 | every import of the module entered ends up listed, or a real cycle is reported |
| `ImportGraph.CycleDetector.Enter` | eta/core/src/eta/reader/module_linker.cpp:196-197 | the path stays a walk and the states stay in step with it |
| `ImportGraph.CycleDetector.Leave` | eta/core/src/eta/reader/module_linker.cpp:203-205 | the name joins the order, which stays duplicate-free and dependencies-first |
| `ImportGraph.CycleDetector.ReportCycle` | eta/core/src/eta/reader/module_linker.cpp:183-193 | the reported names are a suffix of the path closed by the name, and a cycle of the import graph |
| `ImportGraph.OrderedNamesLieOnNoCycle` | eta/core/src/eta/reader/module_linker.cpp:174-208 | a duplicate-free dependencies-first order leaves no cycle among its names |
| `ModuleForms.BadFormSpoilsBody` | eta/core/src/eta/reader/module_linker.cpp:78-109 | one unreadable import clause makes the whole body unreadable |
| `ModuleLinker.ModuleLinker.IndexModules` | eta/core/src/eta/reader/module_linker.cpp:29-58 | accepts exactly the indexable forms; the tables then hold what the forms define, export and import, and nothing else; an error is a fault of some form |
| `ModuleLinker.ModuleLinker.IndexOne` | eta/core/src/eta/reader/module_linker.cpp:32-51 | one more module form is indexed exactly when it is named, new and readable |
| `ModuleLinker.ModuleLinker.ScanModuleBody` | eta/core/src/eta/reader/module_linker.cpp:78-109 | the table describes the body: a name is defined or exported iff some form of the body defines or exports it |
| `ModuleLinker.ModuleLinker.ScanForm` | eta/core/src/eta/reader/module_linker.cpp:83-106 | one form adds exactly the names it defines or exports and the clauses it imports |
| `ModuleLinker.ModuleLinker.ParseImportForm` | eta/core/src/eta/reader/module_linker.cpp:111-119 | the clauses are appended to the pending imports of this module and no other |
| `ModuleLinker.ModuleLinker.IndexCompiledModuleExports` | eta/core/src/eta/reader/module_linker.cpp:60-76 | a compiled provider is added unless its name is taken, with its non-empty export names and no definitions |
| `ModuleLinker.ModuleLinker.Link` | eta/core/src/eta/reader/module_linker.cpp:211-345 | for every iteration order: succeeds iff the recursive specification links the program, ends in exactly the specification's tables, reports a cycle only if it is one and only if there is one, and any other error only where some module has the fault it names |
| `ModuleLinker.ModuleLinker.FindOrder` | eta/core/src/eta/reader/module_linker.cpp:212-215 | from all modules in any order: a real cycle, or an order of everything reachable with dependencies first |
| `ModuleLinker.ModuleLinker.LinkInOrder` | eta/core/src/eta/reader/module_linker.cpp:218-332 | along a dependencies-first order every module gets the specification's table, or the program does not link |
| `ModuleLinker.ModuleLinker.LinkTarget` | eta/core/src/eta/reader/module_linker.cpp:221-331 | one module's table is the combination of its clauses' contributions, and no other table changes |
| `ModuleLinker.ModuleLinker.LinkClause` | eta/core/src/eta/reader/module_linker.cpp:225-326 | one clause is committed iff its contribution exists and conflicts with nothing taken so far |
| `ModuleLinker.ModuleLinker.Commit` | eta/core/src/eta/reader/module_linker.cpp:298-325 | for every order of the selected names: accepted iff no name is defined locally and every known name has the same origin |
| `ModuleLinker.ModuleLinker.ValidateExports` | eta/core/src/eta/reader/module_linker.cpp:334-342 | accepts iff every declared export of every module is visible in it |
| `ModuleLinker.BuildImportMap` | eta/core/src/eta/reader/module_linker.cpp:233-295 | the loop over a clause computes the clause's map, the subject of `ImportLaws.ClauseBrings` |
| `ModuleLinker.RenameEach` | eta/core/src/eta/reader/module_linker.cpp:269-282 | renames act one after another on the map built so far |
| `ModuleLinker.PrefixEach` | eta/core/src/eta/reader/module_linker.cpp:285-293 | for every order of the map: each name prefixed, with its exported name |
| `LinkSpec.RenamesInTurn` | eta/core/src/eta/reader/module_linker.cpp:269-282 | any rename clause is accepted iff in its turn each old name stands for an import and each new name for none, as the last rename mentioning it decides |
| `LinkSpec.RenamesOnceAccepted` | eta/core/src/eta/reader/module_linker.cpp:263-282 | a clause that renames no name twice is accepted iff every new name was never there or is given up by then, and is not given before; it is then the simultaneous renaming, and otherwise a conflict |
| `LinkSpec.RenamesCannotSwap` | eta/core/src/eta/reader/module_linker.cpp:269-282 | a clause that renames no name twice and would swap two names is a conflict, whatever else it renames |
| `LinkSpec.RepeatedRenameSwaps` | eta/core/src/eta/reader/module_linker.cpp:263-282 | `(rename m (t u) (a t) (b a) (t b))` is accepted and swaps a and b, for all exports |
| `LinkSpec.UnionIsEveryBinding` | eta/core/src/eta/reader/module_linker.cpp:298-325 | the imports of compatible clauses are exactly the bindings of each, whatever their order |
| `LinkSpec.CyclesDoNotLink` | eta/core/src/eta/reader/module_linker.cpp:211-215 | a program with an import cycle through a module does not link |
| `LinkSpec.FixedPoint` | eta/core/src/eta/reader/module_linker.cpp:217-332 | a linked module's imports are the combination of its sources' final tables |
| `LinkSpec.ClauseSelectsExports` | eta/core/src/eta/reader/module_linker.cpp:233-295 | every clause selects exported names only |
| `LinkSpec.OriginsAreCanonical` | eta/core/src/eta/reader/module_linker.cpp:298-326 | every origin (m, r) of a linked table: m exports r, does not itself import it, and defines it unless m is a compiled provider |
| `LinkSpec.AcceptedIffSameDefinitions` | eta/core/src/eta/reader/module_linker.cpp:298-326 | individually valid clauses are accepted together iff no import hides a local define and any two paths to one name end at one definition |
| `ImportLaws.ClauseBrings` | eta/core/src/eta/reader/module_linker.cpp:233-295 | a clause is accepted iff the names it lists are exported and its renames free in their turn; its map then holds exactly the pairs the clause brings, said by membership for plain, only, except, prefix and rename clauses |
| `ImportLaws.OnlyAndExceptSplit` | eta/core/src/eta/reader/module_linker.cpp:245-260 | over the same exported names, only and except have disjoint keys that together are the exports |
| `ImportLaws.TableHoldsImports` | eta/core/src/eta/reader/module_linker.cpp:217-332 | the import table of a linked module holds exactly what its clauses bring, each name with the origin that the clause's module has for it |
| `ImportLaws.ClauseErrorTells` | eta/core/src/eta/reader/module_linker.cpp:239-295 | a clause is refused for a listed name that is not exported, or for a rename that fails in its turn |
| `ImportLaws.ClauseReadsBack` | eta/core/src/eta/reader/module_linker.cpp:121-171 | the text of a clause of every kind reads back as the clause, old and new names in their places |
| `ImportLaws.ClausesAreRead` | eta/core/src/eta/reader/module_linker.cpp:121-171 | exactly which forms are import clauses |
| `ImportLaws.ListedName` | eta/core/src/eta/reader/module_linker.cpp:166-169 | a module's name alone in a list imports it whole |
| `ImportLaws.OthersAreSkipped` | eta/core/src/eta/reader/module_linker.cpp:139-156 | what is no symbol among the names, and no pair of symbols among the renames, is passed over |
| `ImportLaws.BodyReadsBack` | eta/core/src/eta/reader/module_linker.cpp:78-119 | the text of a module body reads back as its definitions, exports and clauses |
| `ExpanderHeads.FormIsApplication` | eta/core/src/eta/reader/expander.cpp:331-401 | a list whose head is no special form is expanded element by element |
| `Reexpansion.ReexpansionIsIdentity` | eta/core/src/eta/reader/expander.cpp:229-401 | expanding a core program returns its own text iff the depth limit allows its height, at one gensym per parameter, and otherwise fails for depth |
| `Reexpansion.FormalsReadBack` | eta/core/src/eta/reader/expander.cpp:630-679 | accepted formals, read, are the names and the rest name they were written with |
| `Reexpansion.BodyIsKept` | eta/core/src/eta/reader/expander.cpp:1791-1874 | a body of core forms is not rewritten |
| `Expansion.PairsReadBack` | eta/core/src/eta/reader/expander.cpp:738-760 | accepted let bindings read back as written, with distinct names |
| `Expansion.CoreLet` | eta/core/src/eta/reader/expander.cpp:766-846 | a let over core programs becomes the direct application of a lambda |
| `Expansion.CoreLetrecResult` | eta/core/src/eta/reader/expander.cpp:887-917 | a letrec over core programs becomes placeholders, assignments in order, then the body |
| `Expansion.CoreOrStep` | eta/core/src/eta/reader/expander.cpp:1182-1223 | one step of `or` binds a fresh temporary and tests it |
| `ExpansionOfForms.ExpandsToCore` | eta/core/src/eta/reader/expander.cpp:229-401 | whatever an expression of the modelled language expands to is the text of a core program that desugars it |
| `ExpansionOfForms.LambdaBodyExpands` | eta/core/src/eta/reader/expander.cpp:681-736 | a body, plain or with internal defines, of a lambda, let, named let or let*: kept in order, or one letrec |
| `ExpansionOfForms.DefsBodyExpands` | eta/core/src/eta/reader/expander.cpp:1791-1874 | a body with internal defines becomes a letrec of them around the rest |
| `ExpansionOfForms.LetExpands` | eta/core/src/eta/reader/expander.cpp:766-846 | `let` |
| `ExpansionOfForms.LoopLetExpands` | eta/core/src/eta/reader/expander.cpp:766-846 | named `let`: a letrec of the procedure around the first call |
| `ExpansionOfForms.LetStarExpands` | eta/core/src/eta/reader/expander.cpp:848-885 | `let*`: one let inside the other |
| `ExpansionOfForms.LetrecExpands` | eta/core/src/eta/reader/expander.cpp:887-917 | `letrec`, with distinct names |
| `ExpansionOfForms.CondExpands` | eta/core/src/eta/reader/expander.cpp:975-1052 | `cond`: conditionals nested in clause order, else last |
| `ExpansionOfForms.CaseExpands` | eta/core/src/eta/reader/expander.cpp:1054-1147 | `case`: one fresh key, then tests in clause and datum order |
| `ExpansionOfForms.AndExpands` | eta/core/src/eta/reader/expander.cpp:1149-1180 | `and` |
| `ExpansionOfForms.OrExpands` | eta/core/src/eta/reader/expander.cpp:1182-1223 | `or` |
| `ExpansionOfForms.WhenExpands` | eta/core/src/eta/reader/expander.cpp:1225-1265 | `when` and `unless` |
| `ExpansionOfForms.DoExpands` | eta/core/src/eta/reader/expander.cpp:1267-1383 | `do`: a loop procedure under a fresh name, variables without steps kept |
| `ExpansionOfForms.QuasiExpands` | eta/core/src/eta/reader/expander.cpp:403-514 | quasiquote: cons, append and list->vector calls that follow the template |
| `ExpanderLoops.Expander.Expand` | eta/core/src/eta/reader/expander.cpp:229-287 | expands one form as the specification does, gensym counter included, and restores the depth |
| `ExpanderLoops.Expander.ExpandEach` | eta/core/src/eta/reader/expander.cpp:219-227 | the loop over forms refines the recursive specification |
| `ExpanderLoops.Expander.Application` | eta/core/src/eta/reader/expander.cpp:331-401 | dispatch on the head, or expansion of every element |
| `ExpanderLoops.Expander.SpecialForm` | eta/core/src/eta/reader/expander.cpp:331-401 | every special head goes to its own handler |
| `ExpanderLoops.Expander.QuoteLike` | eta/core/src/eta/reader/expander.cpp:516-537 | quote and quasiquote, with the errors of the others |
| `ExpanderLoops.Expander.If` | eta/core/src/eta/reader/expander.cpp:539-552 | operands in order, a missing alternative filled in |
| `ExpanderLoops.Expander.Define` | eta/core/src/eta/reader/expander.cpp:568-621 | both spellings refine the specification, the subject of `Toplevels.TopExpands` |
| `ExpanderLoops.ReadFormals` | eta/core/src/eta/reader/expander.cpp:630-679 | the loop over formals with its set of seen names refines the specification, first error included |
| `ExpanderLoops.RewriteInternalDefines` | eta/core/src/eta/reader/expander.cpp:1791-1874 | the loop over leading defines builds the specification's letrec |
| `ExpanderLoops.Expander.Lambda` | eta/core/src/eta/reader/expander.cpp:681-736 | formals, a gensym for each parameter, then the rewritten or plain body |
| `ExpanderLoops.ReadPairs` | eta/core/src/eta/reader/expander.cpp:738-760 | the loop over bindings with its set of seen names refines the specification |
| `ExpanderLoops.Expander.LetOver` | eta/core/src/eta/reader/expander.cpp:825-846 | inits before the lambda, then its direct application |
| `ExpanderLoops.Expander.Loop` | eta/core/src/eta/reader/expander.cpp:766-823 | a named let: inits, procedure, then a letrec |
| `ExpanderLoops.Expander.LetStar` | eta/core/src/eta/reader/expander.cpp:848-885 | one binding peeled off |
| `ExpanderLoops.Expander.Letrec` | eta/core/src/eta/reader/expander.cpp:887-917 | inits and body, then the let of placeholders expands them again |
| `ExpanderLoops.Expander.And` | eta/core/src/eta/reader/expander.cpp:1149-1180 | nested conditionals |
| `ExpanderLoops.Expander.Or` | eta/core/src/eta/reader/expander.cpp:1182-1223 | operand, temporary, the rest, then the enclosing let, in this order of gensyms |
| `ExpanderLoops.Expander.When` | eta/core/src/eta/reader/expander.cpp:1225-1265 | test, then body, on the branch of the form |
| `ExpanderLoops.ReadDoVars` | eta/core/src/eta/reader/expander.cpp:1267-1320 | the loop over variable clauses refines the specification, errors included |
| `ExpanderLoops.Expander.Do` | eta/core/src/eta/reader/expander.cpp:1267-1383 | the loop procedure under a fresh name, through a letrec |
| `ExpanderLoops.Expander.Cond` | eta/core/src/eta/reader/expander.cpp:975-1052 | the backward loop over clauses refines the recursive specification, errors included |
| `ExpanderLoops.Expander.Clause` | eta/core/src/eta/reader/expander.cpp:987-1048 | one clause: else, `=>`, test only, or test and body |
| `ExpanderLoops.Expander.Case` | eta/core/src/eta/reader/expander.cpp:1054-1147 | key, temporary, the backward loop over clauses, the enclosing let |
| `ExpanderLoops.Expander.Choice` | eta/core/src/eta/reader/expander.cpp:1073-1135 | one clause of `case` |
| `ExpanderLoops.Expander.KeyTest` | eta/core/src/eta/reader/expander.cpp:1101-1121 | one test for one datum, an `or` of the tests in datum order for more |
| `ExpanderLoops.Expander.Quasiquote` | eta/core/src/eta/reader/expander.cpp:403-514 | one template node of each kind |
| `ExpanderLoops.Expander.QuotingHead` | eta/core/src/eta/reader/expander.cpp:403-437 | a quote form inside a template: levels go up under quasiquote and down under unquote |
| `ExpanderLoops.Expander.QuotedList` | eta/core/src/eta/reader/expander.cpp:439-487 | the backward loop over elements onto the expanded tail |
| `ExpanderLoops.Expander.Element` | eta/core/src/eta/reader/expander.cpp:470-486 | a splice is appended, anything else consed |
| `ExpanderLoops.CondFailsEarlier` | eta/core/src/eta/reader/expander.cpp:987-1048 | an error in one clause is the error of the whole form |
| `Idempotence.OutputIsCore` | eta/core/src/eta/reader/expander.cpp:229-401 | no derived head and no reader abbreviation is left in the output outside quoted data |
| `Idempotence.TextMeasures` | eta/core/src/eta/reader/expander.cpp:229-401 | the height and the parameter count of a core program can be read off its text |
| `Idempotence.ExpandingTwice` | eta/core/src/eta/reader/expander.cpp:229-401 | expanding an expansion gives it back at every depth limit from the height of its text on, at one gensym per parameter, and fails for depth below, for all limits and counters |
| `Idempotence.OperatorBecomesKeyword` | eta/core/src/eta/reader/expander.cpp:331-401 | the operator `(and if)` expands to a keyword, and a second expansion changes the form |
| `Idempotence.CondOutgrowsTheLimit` | eta/core/src/eta/reader/expander.cpp:975-1052 | a `cond` of k clauses expands at depth 2 and its output needs depth k + 2, for every k |
| `NameChecks.ExpandedFits` | eta/core/src/eta/reader/expander.cpp:229-401 | whatever has an expansion is well-named, and its expansion is no higher than four times the program's size |
| `Acceptance.Accepted` | eta/core/src/eta/reader/expander.cpp:229-401 | every well-named program is accepted at every depth limit from four times its size on |
| `Acceptance.AcceptedIffWellNamed` | eta/core/src/eta/reader/expander.cpp:229-401 | at such a limit a program is accepted iff it is well-named: binders unreserved and distinct, no empty body or clause list |
| `CoreNames.NamesKept` | eta/core/src/eta/reader/expander.cpp:229-401 | an expansion uses the program's names, its gensyms, and eqv?, cons, append and list->vector |
| `Spelling.GensymsDiffer` | eta/core/src/eta/reader/expander.cpp:120-129 | two gensyms of a session are spelled alike only if their hints and counters are equal |
| `Spelling.TextDeterminesCore` | eta/core/src/eta/reader/expander.cpp:120-129 | one text spells one core program when no user name is spelled like a gensym |
| `Relation.PrimitivesRel` | eta/core/src/eta/reader/expander.cpp:1101-1121 | primitives, the ones expansions call among them, treat related arguments alike |
| `CoreSteps.OrStepRuns` | eta/core/src/eta/reader/expander.cpp:1182-1223 | the expansion of one `or` step evaluates its operand once and yields it or goes on |
| `KeyTests.KeyTestRuns` | eta/core/src/eta/reader/expander.cpp:1101-1121 | the expanded test of a `case` clause is true iff the key is eqv? to one of the data, and changes no user location |
| `Bindings.ArgsRel` | eta/core/src/eta/reader/expander.cpp:681-736 | a call and its expansion accept the same numbers of arguments and bind them alike, rest list included |
| `Bindings.LetrecRuns` | eta/core/src/eta/reader/expander.cpp:887-917 | the expansion of letrec runs its assignments in order and then its body, in one frame |
| `Bindings.AllInitialised` | eta/core/src/eta/reader/expander.cpp:887-917 | assigning one by one ends in the state of assigning all inits together, when no init saw the others' locations |
| `NamedLets.NamedLetIsLetrec` | eta/core/src/eta/reader/expander.cpp:766-823 | a named let desugars to a core program iff the letrec of its procedure around the first call does and the loop's name is none of its variables |
| `NamedLets.UnloopedDesugars` | eta/core/src/eta/reader/expander.cpp:766-823 | whatever a program desugars to, so does the program with all its named lets written as letrecs |
| `NamedLets.UnloopedIsShaped` | eta/core/src/eta/reader/expander.cpp:766-823 | with its named lets written as letrecs a program is still in the language, and nothing in it is captured |
| `Simulation.Simulates` | eta/core/src/eta/reader/expander.cpp:229-401 | every program related to an expression by `Desugars` runs as the expression means, from related environments and stores, with the same fuel |
| `Simulation.LetSimulated` | eta/core/src/eta/reader/expander.cpp:766-846 | meaning of `let` |
| `Simulation.LoopLetSimulated` | eta/core/src/eta/reader/expander.cpp:766-846 | meaning of named `let` |
| `Simulation.LetStarSimulated` | eta/core/src/eta/reader/expander.cpp:848-885 | meaning of `let*` |
| `Simulation.LetrecSimulated` | eta/core/src/eta/reader/expander.cpp:887-917 | meaning of `letrec`: all inits, then all assignments |
| `Simulation.BlockSimulated` | eta/core/src/eta/reader/expander.cpp:681-736 | meaning of a body of a procedure or let, with or without internal defines |
| `Simulation.DefinitionsSimulated` | eta/core/src/eta/reader/expander.cpp:1791-1874 | meaning of internal defines: initialised in order |
| `Simulation.CondSimulated` | eta/core/src/eta/reader/expander.cpp:975-1052 | meaning of `cond` |
| `Simulation.CaseSimulated` | eta/core/src/eta/reader/expander.cpp:1054-1147 | meaning of `case` |
| `Simulation.AndSimulated` | eta/core/src/eta/reader/expander.cpp:1149-1180 | meaning of `and` |
| `Simulation.OrSimulated` | eta/core/src/eta/reader/expander.cpp:1182-1223 | meaning of `or`: each operand evaluated at most once |
| `Simulation.IfSimulated` | eta/core/src/eta/reader/expander.cpp:539-552 | meaning of `if` with and without an alternative, `when` and `unless` |
| `Simulation.DoSimulated` | eta/core/src/eta/reader/expander.cpp:1267-1383 | meaning of `do`: fresh locations each pass, steps after commands |
| `Simulation.QuasiSimulated` | eta/core/src/eta/reader/expander.cpp:403-514 | meaning of quasiquote: the template with unquotes filled in and splices concatenated, for all nestings of lists, dotted lists and vectors |
| `Simulation.AppSimulated` | eta/core/src/eta/reader/expander.cpp:331-401 | meaning of application, direct or computed |
| `ExpansionMeaning.ExpansionHasOneReading` | eta/core/src/eta/reader/expander.cpp:229-401 | the output text can be read as exactly one core program |
| `ExpansionMeaning.ExpansionPreservesMeaning` | eta/core/src/eta/reader/expander.cpp:229-401 | a whole run of the output comes to what the source program means |
| `ExpansionMeaning.SameObservation` | eta/core/src/eta/reader/expander.cpp:229-401 | a program that comes to data, or leaves data in a location, expands to one that comes to and leaves the same data |
| `ExpansionMeaning.ExpansionMeansUnlooped` | eta/core/src/eta/reader/expander.cpp:229-401 | whatever named lets capture, a whole run of the output comes to what the program means with each named let written as its letrec |
| `ExpansionMeaning.NamedLetCapturesItsInits` | eta/core/src/eta/reader/expander.cpp:766-846 | `(let car ((x car)) x)` is accepted at every large enough limit with a given output, means the primitive, and its output comes to the loop procedure |
| `Toplevels.TopExpands` | eta/core/src/eta/reader/expander.cpp:568-621 | a top-level definition, in either spelling, expands to a definition of the same name by the text of a core program that desugars its init or its lambda; an expression as before |
| `Toplevels.TopsExpand` | eta/core/src/eta/reader/expander.cpp:219-227 | the forms of a module body expand in order, each to the text of a core form that desugars it |
| `Toplevels.TopOutputIsCore` | eta/core/src/eta/reader/expander.cpp:568-621 | no derived head is left in the output of a top-level form |
| `Toplevels.TopExpandingTwice` | eta/core/src/eta/reader/expander.cpp:568-621 | expanding the output again gives it back at every limit from its height on, and fails for depth below |
| `Toplevels.TopAcceptedIff` | eta/core/src/eta/reader/expander.cpp:568-621 | at limits from four times its size on, a definition is accepted iff its name is unreserved and its right-hand side well-named |
| `Toplevels.BodyPreservesMeaning` | eta/core/src/eta/reader/expander.cpp:568-621 | running the expanded forms of a module body relates to running the forms: outcomes, values, and what the defined names' locations hold at the end |
| `OddForms.ArrowClause` | eta/core/src/eta/reader/expander.cpp:1014-1033 | the whole output of a `cond` whose first clause is `(test => receiver)` |
| `OddForms.TestOnlyClause` | eta/core/src/eta/reader/expander.cpp:1035-1040 | the whole output of a `cond` whose first clause has only a test |
| `OddForms.BadClause` | eta/core/src/eta/reader/expander.cpp:986-999 | a clause that is no list, an empty one, and an else that is not last or has no body are errors |
| `OddForms.BalancedTower` | eta/core/src/eta/reader/expander.cpp:413-430 | for all k: k quasiquotes around k unquotes expand what they enclose and keep k - 1 unquote forms |
| `OddForms.ShallowTower` | eta/core/src/eta/reader/expander.cpp:413-430 | for all j < k: an atom under k quasiquotes and j unquotes is quoted under j unquote forms |
| `OddForms.DeepTower` | eta/core/src/eta/reader/expander.cpp:413-430 | for all k: one unquote or splice more than there are quasiquotes is an error |
| `OddForms.QuoteInTemplate` | eta/core/src/eta/reader/expander.cpp:411-412 | a quote in a template is the output itself |
| `OddForms.SpliceInTemplate` | eta/core/src/eta/reader/expander.cpp:427-437 | a splice with nothing to splice into is an error at level one and a form below |
| `OddForms.PrognIsBegin` | eta/core/src/eta/reader/expander.cpp:554-566 | progn expands as begin does, under its own name |
| `OddForms.EitherSpelling` | eta/core/src/eta/reader/expander.cpp:1791-1874 | among the leading defines of a body, a procedure may be spelled with its parameters or as a lambda: both bodies expand alike, errors included |
| `OddForms.QuoteArity` | eta/core/src/eta/reader/expander.cpp:516-522 | the quote forms take one operand |
| `OddForms.FirstFaultyParameter` | eta/core/src/eta/reader/expander.cpp:630-679 | the first parameter that is no symbol, reserved or repeated decides the error, whatever follows |
| `OddForms.FaultyFormals` | eta/core/src/eta/reader/expander.cpp:630-679 | after good parameters a faulty rest parameter decides; formals that are no list must be an unreserved name |
| `OddForms.BrokenFails` | eta/core/src/eta/reader/expander.cpp:539-1300 | forms with too few or too many parts, or parts of the wrong shape, are refused before anything in them is expanded |
| `OddForms.ReservedDefinition` | eta/core/src/eta/reader/expander.cpp:568-594 | a reserved name cannot be defined, in either spelling |
| `OddForms.ReservedBinding` | eta/core/src/eta/reader/expander.cpp:738-760 | nor bound by let, letrec or do, each with its own error |
| `OddForms.KeywordsAreHeads` | eta/core/src/eta/reader/expander.cpp:75-86 | macro templates keep exactly the heads that have handlers; all of these but letrec* are reserved, and six other names |
| `SyntaxRules.CollectPatternVars` | eta/core/src/eta/reader/expander.cpp:2114-2126 | the traversal adds exactly the pattern's variables |
| `SyntaxRules.MatchPattern` | eta/core/src/eta/reader/expander.cpp:2145-2228 | succeeds iff the specification matches, with its bindings, written into the environment in place |
| `SyntaxRules.MatchRepetitions` | eta/core/src/eta/reader/expander.cpp:2176-2224 | the repetitions are collected in order |
| `SyntaxRules.InstantiateTemplate` | eta/core/src/eta/reader/expander.cpp:2230-2346 | the result, the renamings and the gensym counter are those of the specification, the subject of `Hygiene.NamesAreIntroducedOnce` |
| `SyntaxRules.InstantiateRepetitions` | eta/core/src/eta/reader/expander.cpp:2290-2340 | one instance for each repetition of the first ellipsis variable met |
| `SyntaxRulesInversion.MatchIsExact` | eta/core/src/eta/reader/expander.cpp:2145-2228 | for every linear pattern: matching succeeds with some bindings, none of them of a variable under an ellipsis that is itself repeated, iff the input is the pattern filled in with them and they bind exactly its variables |
| `SyntaxRulesInversion.InstantiatingUndoesMatching` | eta/core/src/eta/reader/expander.cpp:2145-2345 | matching an input and instantiating the pattern as a template gives every input back, up to equal data, when there is at most one ellipsis and it is over a variable |
| `SyntaxRulesInversion.MatchingUndoesInstantiating` | eta/core/src/eta/reader/expander.cpp:2145-2345 | matching any instantiation of a pattern with no variable under two ellipses recovers the bindings |
| `SyntaxRulesInversion.RoundTripIffSurvives` | eta/core/src/eta/reader/expander.cpp:2145-2345 | for every linear pattern of variables, data and lists, with any ellipses, nested or side by side: instantiating what was matched succeeds, and gives the input back iff the outer ellipses took equally many elements (none, if they have no variables) and those below them none |
| `SyntaxRulesInversion.EllipsisWithoutVariables` | eta/core/src/eta/reader/expander.cpp:2290-2340 | `(1 ...)` on `(1)` does not survive: it matches and is instantiated to `()` |
| `SyntaxRulesInversion.NestedValuesAreLost` | eta/core/src/eta/reader/expander.cpp:2183-2222 | `((x ...) ...)` matches any list of lists and keeps only how many there were |
| `SyntaxRulesInversion.TwoListsSurvive` | eta/core/src/eta/reader/expander.cpp:2299-2308 | `((a ...) (b ...))` survives exactly on two lists of one length, because one variable gives the count of both |
| `SyntaxText.ParseSyntaxPattern` | eta/core/src/eta/reader/expander.cpp:2007-2060 | the loop over a list's elements refines the specification, ellipsis errors included |
| `SyntaxText.ParseSyntaxTemplate` | eta/core/src/eta/reader/expander.cpp:2062-2111 | likewise for templates |
| `SyntaxText.ReadsAlike` | eta/core/src/eta/reader/expander.cpp:2007-2111 | the text of a pattern of variables, data and lists, read as a template over its variables, is that pattern's template |
| `SyntaxText.TextUndoesItself` | eta/core/src/eta/reader/expander.cpp:2007-2345 | match with a pattern's text, instantiate the same text: it succeeds, and the input comes back iff it survives |
| `SyntaxSpelling.PatternIsSpelled` | eta/core/src/eta/reader/expander.cpp:2007-2060 | a text is read as a pattern iff it spells it: underscore, literals by their identities, variables, data, lists with at most one ellipsis |
| `SyntaxSpelling.TemplateIsSpelled` | eta/core/src/eta/reader/expander.cpp:2062-2112 | a text is read as a template iff it spells it |
| `SyntaxSpelling.PatternFails` | eta/core/src/eta/reader/expander.cpp:2007-2060 | an ellipsis without an item before it, and a second ellipsis, are errors |
| `SyntaxSpelling.TemplateFails` | eta/core/src/eta/reader/expander.cpp:2062-2112 | likewise for templates |
| `SyntaxSpelling.DatumsMatch` | eta/core/src/eta/reader/expander.cpp:2131-2142 | a datum pattern matches equal atoms only, floating-point numbers by value |
| `Hygiene.NamesAreIntroducedOnce` | eta/core/src/eta/reader/expander.cpp:2230-2346 | for every template, environment and starting renaming: instantiation fails with the first fault, or gives the template filled in by a substitution that reads every introduced name from the final renaming, which keeps the names it had and gives exactly the introduced ones new gensyms, no two alike |
| `Hygiene.PairsAreZipped` | eta/core/src/eta/reader/expander.cpp:2299-2328 | `((a b) ...)` repeats as often as the variable met first has values; missing values of the other are the empty list |
| `Hygiene.UsesDoNotMeet` | eta/core/src/eta/reader/expander.cpp:2383-2390 | two instantiations that start without renamed names share no introduced symbol |
| `Sorting.SortedIsUnique` | eta/core/src/eta/package/lockfile.cpp:412-452 | without ties there is one sorted permutation, so the sorting algorithm does not matter |
| `TomlText.StripComment` | eta/core/src/eta/package/lockfile.cpp:32-54 | the flag loop drops everything from the first '#' outside quotes; what that means for a line and a file is in `Comments` |
| `TomlText.FindUnquotedChar` | eta/core/src/eta/package/lockfile.cpp:56-77 | the flag loop finds the first needle outside quotes, if there is one |
| `TomlText.ParseQuotedString` | eta/core/src/eta/package/lockfile.cpp:79-125 | the cursor loop reads a quoted string as the specification does |
| `TomlText.EscapeString` | eta/core/src/eta/package/lockfile.cpp:231-245 | the loop escapes character by character |
| `TomlText.UnescapeEscape` | eta/core/src/eta/package/lockfile.cpp:79-125 | reading an escaped string gives the string, for all strings |
| `TomlText.QuotedFacts` | eta/core/src/eta/package/lockfile.cpp:32-125 | a quoted string hides every '#', ',', '=', ']' and newline in it from the scanners, and reads back |
| `TomlText.LinesOfAssembled` | eta/core/src/eta/package/lockfile.cpp:249-265 | splitting into lines inverts writing lines |
| `Comments.CommentIsDropped` | eta/core/src/eta/package/manifest.cpp:39-61 | a line of plain stretches and quoted strings loses everything from a # after it and nothing else; a # in quotes is kept |
| `Comments.EveryLine` | eta/core/src/eta/package/manifest.cpp:39-61 | every line is such a line followed by nothing, a comment, or a quote never closed; only the comment is dropped |
| `Comments.DecoratedSaysTheSame` | eta/core/src/eta/package/manifest.cpp:420-421 | white space around a line whose quotes are closed, and a comment after it, do not change what it says |
| `Comments.SpacedAssignment` | eta/core/src/eta/package/manifest.cpp:458-467 | any white space around = is an assignment of the same key |
| `Comments.SpacedInteger` | eta/core/src/eta/package/lockfile.cpp:128-151 | a schema version in decimal digits reads as its number, with any white space around it |
| `Comments.ManifestIgnoresComments` | eta/core/src/eta/package/manifest.cpp:407-610 | comments and white space in the lines of any text leave the manifest read, or the error with its line, as they were |
| `Comments.ManifestIgnoresLayout` | eta/core/src/eta/package/manifest.cpp:407-610 | blank and comment lines between them change at most the number of an erroneous line |
| `Comments.CommentedManifestReadsBack` | eta/core/src/eta/package/manifest.cpp:407-610 | a written manifest with comments, white space and blank lines added reads back as the manifest |
| `Comments.WrittenManifestIsClosed` | eta/core/src/eta/package/manifest.cpp:630-665 | every line of a written manifest takes a comment |
| `Comments.ManifestErrorLine` | eta/core/src/eta/package/manifest.cpp:418-542 | an error names the first line that fails, after reading those before it |
| `Comments.LockfileIgnoresComments` | eta/core/src/eta/package/lockfile.cpp:249-395 | the same for lockfiles: comments and white space in any text |
| `Comments.LockfileIgnoresLayout` | eta/core/src/eta/package/lockfile.cpp:249-395 | the same for lockfiles: lines inserted |
| `Comments.CommentedLockfileReadsBack` | eta/core/src/eta/package/lockfile.cpp:249-395 | a written lockfile with comments, white space and blank lines added reads back as the lockfile |
| `Comments.WrittenLockfileIsClosed` | eta/core/src/eta/package/lockfile.cpp:412-452 | every line of a written lockfile takes a comment |
| `Comments.LockfileErrorLine` | eta/core/src/eta/package/lockfile.cpp:256-338 | an error names the first line that fails |
| `Lockfiles.ParseInteger` | eta/core/src/eta/package/lockfile.cpp:128-151 | the digit loop reads the number of an all-digit value |
| `Lockfiles.CheckSemverish` | eta/core/src/eta/package/lockfile.cpp:218-229 | accepts non-empty text of version characters only |
| `Lockfiles.ParseDependencyList` | eta/core/src/eta/package/lockfile.cpp:153-216 | the cursor loop reads the entries of a bracketed list |
| `Lockfiles.ParseLockfile` | eta/core/src/eta/package/lockfile.cpp:249-395 | the line loop refines the specification's state machine, with the same error |
| `Lockfiles.ParseLine` | eta/core/src/eta/package/lockfile.cpp:262-360 | one line, one step |
| `Lockfiles.CheckPackage` | eta/core/src/eta/package/lockfile.cpp:362-392 | the first fault of a package, in the order of the checks |
| `Lockfiles.WriteLockfile` | eta/core/src/eta/package/lockfile.cpp:412-452 | the text is that of the packages and dependencies in writing order |
| `Lockfiles.WritePackage` | eta/core/src/eta/package/lockfile.cpp:430-449 | the text of one package, field by field |
| `LockfileRoundTrip.RoundTrip` | eta/core/src/eta/package/lockfile.cpp:249-452 | writing packages and parsing the text gives them back iff they are well-formed, whatever their strings contain |
| `LockfileRoundTrip.ParsedIsWellFormed` | eta/core/src/eta/package/lockfile.cpp:249-395 | every lockfile accepted from any text is well-formed |
| `LockfileRoundTrip.SecondWriteIsTheSame` | eta/core/src/eta/package/lockfile.cpp:412-452 | a written file, read and written again, is the same text |
| `LockfileRoundTrip.InOrderIsWrittenAsIs` | eta/core/src/eta/package/lockfile.cpp:412-452 | packages in order without ties are written as they stand |
| `LockfileRoundTrip.WritingKeepsWellFormedness` | eta/core/src/eta/package/lockfile.cpp:412-452 | sorting neither makes nor breaks well-formedness |
| `LockfileLaws.ListIsRead` | eta/core/src/eta/package/lockfile.cpp:153-216 | a dependency list, with any spacing and empty entries, is read iff every entry splits into a name without @ and a version, as those |
| `LockfileLaws.StringIsNoList` | eta/core/src/eta/package/lockfile.cpp:153-165 | a dependency list needs its brackets |
| `LockfileLaws.OtherLinesFail` | eta/core/src/eta/package/lockfile.cpp:262-293 | other headers, and lines without a key or an assignment, are errors |
| `LockfileLaws.UnknownKeyIsSkipped` | eta/core/src/eta/package/lockfile.cpp:295-338 | keys that are not the format's are passed over |
| `LockfileLaws.KnownKeyNeedsValue` | eta/core/src/eta/package/lockfile.cpp:295-338 | a known key with a value of the wrong kind is an error on its line |
| `LockfileLaws.FirstBadPackage` | eta/core/src/eta/package/lockfile.cpp:347-392 | the first unsound package decides the error: a missing field, or else a bad version |
| `Manifests.ParseDependencyInlineTable` | eta/core/src/eta/package/manifest.cpp:143-327 | the cursor loop and the checks after it refine the specification, error for error |
| `Manifests.ReadPairs` | eta/core/src/eta/package/manifest.cpp:165-280 | the pairs of an inline table, in order, each key once |
| `Manifests.ParseManifest` | eta/core/src/eta/package/manifest.cpp:407-610 | accepts iff the specification does, with the same error, and sorts both dependency lists |
| `Manifests.WriteManifest` | eta/core/src/eta/package/manifest.cpp:630-665 | the text is that of the manifest with both lists sorted |
| `Manifests.RenderDependency` | eta/core/src/eta/package/manifest.cpp:385-403 | the inline table of a dependency's own kind |
| `ManifestRoundTrip.RoundTrip` | eta/core/src/eta/package/manifest.cpp:143-665 | writing a manifest and reading the text gives it back iff it is valid and fills only the fields of its dependencies' own kinds |
| `ManifestRoundTrip.ReadIsValid` | eta/core/src/eta/package/manifest.cpp:407-610 | every manifest accepted from any text is valid |
| `ManifestRoundTrip.WriteParseWrite` | eta/core/src/eta/package/manifest.cpp:369-665 | from any valid manifest with own-kind fields only: what is written parses, to the sorted manifest, and the second text is the first |
| `ManifestLaws.SoundTable` | eta/core/src/eta/package/manifest.cpp:143-327 | an inline table with any settings in any order and spacing: shows one kind, has what it needs, is pinned, or the error for what is missing; all its settings become fields |
| `ManifestLaws.StringIsNoTable` | eta/core/src/eta/package/manifest.cpp:146-153 | a dependency given by a string is refused |
| `ManifestLaws.FaultyTable` | eta/core/src/eta/package/manifest.cpp:165-262 | the first unknown or repeated key of a table decides the error |
| `ManifestLaws.VersionsAreSemver` | eta/core/src/eta/package/manifest.cpp:334-338 | a version is valid iff it splits into three numbers, an optional pre-release label and an optional build label |
| `ManifestLaws.PackageNamesAre` | eta/core/src/eta/package/manifest.cpp:329-332 | exactly which names are valid |
| `ManifestLaws.ClassesAre` | eta/core/src/eta/package/manifest.cpp:329-367 | the characters of package names, pins, licences and version ranges |
| `ManifestLaws.HeaderOpens` | eta/core/src/eta/package/manifest.cpp:440-455 | a header opens the section of its name, unknown names one that is passed over |
| `ManifestLaws.EmptyHeaderOpens` | eta/core/src/eta/package/manifest.cpp:440-455 | empty brackets open a section that is passed over |
| `ManifestLaws.HeaderFails` | eta/core/src/eta/package/manifest.cpp:423-439 | headers of table arrays and headers without their bracket are errors |
| `ManifestLaws.UnknownKeyIsSkipped` | eta/core/src/eta/package/manifest.cpp:476-500 | keys a section does not know are passed over, whatever their values |
| `ManifestLaws.KnownKeyNeedsString` | eta/core/src/eta/package/manifest.cpp:476-500 | a known key needs a quoted string |
| `ManifestLaws.NoAssignmentFails` | eta/core/src/eta/package/manifest.cpp:458-475 | a line without an assignment or without a key is an error |
| `ManifestLaws.DependencyLineFails` | eta/core/src/eta/package/manifest.cpp:501-530 | a dependency needs a valid name, new in both sections, and a table |
| `ResolveSpec.DependenciesAreInGraph` | eta/core/src/eta/package/resolver.cpp:258-293 | every dependency name of every resolved package is in the graph |
| `ResolveSpec.EdgesAreKept` | eta/core/src/eta/package/resolver.cpp:258-293 | one package of the graph lists another iff its manifest has an edge to the other's |
| `ResolveSpec.CyclicIffLoops` | eta/core/src/eta/package/resolver.cpp:206-256 | the graph has a cycle iff some manifest reachable from the root leads back to itself |
| `ResolveLaws.NamesAreDeclared` | eta/core/src/eta/package/resolver.cpp:249-293 | a package lists the names its manifest declares; the root alone its development dependencies, when asked for |
| `ResolveLaws.OthersDevelopmentDoesNotMatter` | eta/core/src/eta/package/resolver.cpp:249-262 | changing development dependencies of other manifests changes no resolution, nor the root's when they are not asked for |
| `ResolveLaws.LocatedExactly` | eta/core/src/eta/package/resolver.cpp:63-132 | without a locator: a path dependency is found at its path, another in the first row of its name and source once materialized; each error says which failed |
| `ResolveLaws.LocatorDecides` | eta/core/src/eta/package/resolver.cpp:142-150 | a locator decides, and a location without source gets the dependency's own |
| `ResolveLaws.SourceTellsDependency` | eta/core/src/eta/package/resolver.cpp:51-61 | kind, place and pin can be read off a source |
| `Resolvers.Resolver.Visit` | eta/core/src/eta/package/resolver.cpp:182-298 | terminates; on success the manifest and everything below it is known and done; a failure is justified by the world |
| `Resolvers.Resolver.VisitAll` | eta/core/src/eta/package/resolver.cpp:269-286 | the dependencies are followed in name order and their names recorded |
| `Resolvers.Resolver.Enter` | eta/core/src/eta/package/resolver.cpp:238-256 | a new node with both indexes kept in step |
| `Resolvers.Resolver.Leave` | eta/core/src/eta/package/resolver.cpp:288-297 | dependency names become sorted and unique; stack and visiting set are restored |
| `Resolvers.Resolver.NameCycle` | eta/core/src/eta/package/resolver.cpp:212-223 | the reported names are a suffix of the stack closed by the name, and each has a dependency of the next name |
| `Resolvers.SortedUnique` | eta/core/src/eta/package/resolver.cpp:288-293 | exactly the given names, each once, in order |
| `Resolvers.JustifiedIsUnsolvable` | eta/core/src/eta/package/resolver.cpp:182-298 | whatever justifies a failure is an inconsistency of the reachable world |
| `Resolvers.ResolveDependencies` | eta/core/src/eta/package/resolver.cpp:164-321 | succeeds iff every reachable edge resolves to a manifest of its name and no two reachable manifests share one; returns exactly the reachable manifests, root first, then by name; each error code tells what is wrong, and a cycle error names a real cycle of dependency names closed by a name that two manifests share, unless a locator passed it on |
| `Pipeline.BuildLockfile` | eta/core/src/eta/package/resolver.cpp:328-358 | a row for each package, in graph order |
| `Pipeline.BuildDropsNothing` | eta/core/src/eta/package/resolver.cpp:332-355 | every row lists exactly its package's dependency names, in order, each with the version in the graph |
| `Pipeline.PipelineIsLossless` | eta/core/src/eta/package/resolver.cpp:310-358 | resolve, build, write, parse: the lockfile itself, order included |
| `Pipeline.SelfDependencyResolves` | eta/core/src/eta/package/resolver.cpp:206-256 | a package that depends on itself resolves, and every graph it resolves to has a cycle |
| `Numerals.SignedDecimalReadsBack` | eta/core/src/eta/reader/parser.cpp:285-354 | a fixnum reads back from its decimal text iff it fits 64 bits |
| `Numerals.ByteOfIsExact` | eta/core/src/eta/reader/parser.cpp:225-258 | the byte literals are exactly the unsigned numerals of value at most 255, in every radix |
| `Numerals.ParseByteLiteral` | eta/core/src/eta/reader/parser.cpp:225-258 | both branches of the routine compute that byte |
| `Numerals.ParseDigits` | eta/core/src/eta/reader/parser.cpp:238-253 | the guarded loop rejects exactly the numerals above 255 and never wraps |
| `DatumGrammar.ParseInvertsUnparse` | eta/core/src/eta/reader/parser.cpp:105-396 | reading a tree's tokens, followed by anything, gives its datum and leaves what follows |
| `DatumGrammar.ParsedIsSpelled` | eta/core/src/eta/reader/parser.cpp:105-396 | whatever is read is the datum of a tree spelled by exactly the tokens consumed |
| `DatumGrammar.StrictIffNoBareUnquote` | eta/core/src/eta/reader/parser.cpp:356-394 | strict reading accepts a datum iff every unquote in it has a quasiquote above it, and reads the same datum |
| `DatumGrammar.SpellingIsUnambiguous` | eta/core/src/eta/reader/parser.cpp:105-283 | one token stream spells one datum |
| `DatumWriting.WrittenIsRead` | eta/core/src/eta/reader/parser.cpp:105-396 | every readable datum has tokens, given by a function on data, that read as the datum and leave what follows, iff the rules permit it |
| `DatumWriting.ReadIsReadable` | eta/core/src/eta/reader/parser.cpp:105-396 | whatever is read is readable: integers fit, bytes fit, no symbol Nil, no tail without elements |
| `DatumWriting.DigitsOfBase` | eta/core/src/eta/reader/parser.cpp:238-246 | which characters are digits in each base |
| `DatumWriting.NumeralIsRead` | eta/core/src/eta/reader/parser.cpp:285-354 | a signed numeral in base 2, 8, 10 or 16, in either case of letters, reads as its number if that fits 64 bits, else as floating point in base 10, else as an error |
| `DatumWriting.NumeralAsByte` | eta/core/src/eta/reader/parser.cpp:225-258 | the same numeral in a byte vector |
| `DatumWriting.ListFails` | eta/core/src/eta/reader/parser.cpp:159-204 | after any elements: the error for the end of the input, the other bracket, a lexer error and a first dot |
| `DatumWriting.TailFails` | eta/core/src/eta/reader/parser.cpp:159-204 | after a dotted tail: the errors for a second dot, a further datum, the other bracket and the end |
| `DatumWriting.VectorFails` | eta/core/src/eta/reader/parser.cpp:206-223 | the errors of a vector |
| `DatumWriting.ByteVectorFails` | eta/core/src/eta/reader/parser.cpp:260-283 | the errors of a byte vector |
| `DatumWriting.StrayTokens` | eta/core/src/eta/reader/parser.cpp:105-157 | what cannot start a datum, each with its error |
| `DatumWriting.UnquoteFails` | eta/core/src/eta/reader/parser.cpp:356-366 | a strict reader refuses an unquote that no quasiquote encloses |
| `DatumWriting.ElementFails` | eta/core/src/eta/reader/parser.cpp:159-223 | the error of an element is the error of the list or vector |
| `Parsers.Parser.ParseDatum` | eta/core/src/eta/reader/parser.cpp:105-157 | the parser object reads what the specification reads, with its error, consumes the same tokens, and restores the quasiquote depth on success; `DatumWriting.WrittenIsRead` says what that is for every datum |
| `Parsers.Parser.ParseAbbreviation` | eta/core/src/eta/reader/parser.cpp:356-395 | the depth is raised while the datum under a quasiquote is read, not touched by an unquote, and restored on success |
| `Parsers.Parser.ParseList` | eta/core/src/eta/reader/parser.cpp:159-204 | the list loop, dots included |
| `Parsers.Parser.ParseVector` | eta/core/src/eta/reader/parser.cpp:206-223 | the vector loop |
| `Parsers.Parser.ParseByteVector` | eta/core/src/eta/reader/parser.cpp:260-283 | the byte vector loop |
| `Parsers.Parser.Peek` | eta/core/src/eta/reader/parser.cpp:25-33 | looks at the next token without changing what is left |
| `Parsers.Parser.Advance` | eta/core/src/eta/reader/parser.cpp:16-23 | takes the token that was peeked at |
| `DatumSkipping.Lexer.SkipDatum` | eta/core/src/eta/reader/lexer.cpp:190-289 | the depth-counter loops skip as their specification does |
| `DatumSkipping.Lexer.SkipToCloser` | eta/core/src/eta/reader/lexer.cpp:199-260 | the outer loop |
| `DatumSkipping.Lexer.SkipBrackets` | eta/core/src/eta/reader/lexer.cpp:212-232 | the inner loop |
| `DatumSkipping.SkippingAgreesWithParsing` | eta/core/src/eta/reader/lexer.cpp:190-289 | where a datum parses, skipping succeeds and stops at the same token, in strict mode or not |
| `DatumSkipping.SkippedParsesIff` | eta/core/src/eta/reader/lexer.cpp:190-289 | what is skipped parses iff the tokens passed are those of one well-formed tree that the rules permit |
| `DatumSkipping.SkippingAcceptsMore` | eta/core/src/eta/reader/lexer.cpp:199-289 | a list closed by the wrong bracket is skipped and not parsed |
| `BlockComments.CommentLexer.SkipBlockComment` | eta/core/src/eta/reader/lexer.cpp:173-188 | the depth counter ends where recursive descent over nested comments ends, or both find the comment unterminated |
| `BlockComments.CommentsNest` | eta/core/src/eta/reader/lexer.cpp:173-188 | a whole comment inside another does not move its end |
| `BlockComments.CommentIsPassed` | eta/core/src/eta/reader/lexer.cpp:173-188 | a comment, written as text and whole comments inside it, is passed over to the byte after its end |
| `BlockComments.PassedIsComment` | eta/core/src/eta/reader/lexer.cpp:173-188 | whatever is passed over is such a comment |
| `Utf8.AppendUtf8` | eta/core/src/eta/reader/unicode.h:8-24 | appends the encoding of the scalar value |
| `Utf8.DecodeUtf8` | eta/core/src/eta/reader/lexer.cpp:313-340 | the loop decodes as the specification does; what it returns is a scalar value and the sequence is complete |
| `Utf8.EncodeIsShortest` | eta/core/src/eta/reader/unicode.h:8-24 | every scalar value is written in shortest form (sections 3 and 4 of RFC 3629) |
| `Utf8.DecodeInvertsEncode` | eta/core/src/eta/reader/lexer.cpp:313-340 | decoding inverts encoding on all scalar values, whatever follows |
| `Utf8.EncodeInvertsDecode` | eta/core/src/eta/reader/lexer.cpp:313-340 | a shortest-form character is the encoding of what it decodes to |
| `Utf8.DecodedIsScalar` | eta/core/src/eta/reader/lexer.cpp:313-340 | re-encoding gives the bytes read iff they were in shortest form |
| `Utf8.OverlongIsAccepted` | eta/core/src/eta/reader/lexer.cpp:313-340 | an accepted sequence is not in shortest form iff it starts with E0 and a byte below A0 or with F0 and a byte below 90 |
| `Utf8.OverlongExamples` | eta/core/src/eta/reader/lexer.cpp:324-326 | a three- and a four-byte instance with the values they decode to |
| `StringLiterals.ByteLexer.ConsumeString` | eta/core/src/eta/reader/lexer.cpp:342-395 | reads a string literal as the specification does, with the same error |
| `StringLiterals.ByteLexer.ConsumeEscape` | eta/core/src/eta/reader/lexer.cpp:353-374 | appends the character an escape stands for |
| `StringLiterals.ByteLexer.ConsumeHexUntilSemicolon` | eta/core/src/eta/reader/lexer.cpp:444-479 | reads a hex escape as the specification does |
| `StringLiterals.HexCode` | eta/core/src/eta/reader/lexer.cpp:452-470 | in 32-bit arithmetic: the guard rejects exactly the numbers beyond the Unicode range and nothing wraps |
| `StringGrammar.HexEscapeIsExact` | eta/core/src/eta/reader/lexer.cpp:444-479 | a hex escape is accepted iff its exact value is a scalar value, for numerals of any length |
| `StringGrammar.ReadingInvertsSpelling` | eta/core/src/eta/reader/lexer.cpp:342-395 | a spelled literal reads as the encoding of what its pieces mean |
| `StringGrammar.AcceptedIsSpelled` | eta/core/src/eta/reader/lexer.cpp:342-395 | whatever is accepted is a spelling of pieces up to the first unescaped quote |
| `StringGrammar.AcceptedTextIsUtf8` | eta/core/src/eta/reader/lexer.cpp:342-395 | every accepted string is well-formed shortest-form UTF-8, whatever bytes the source used |
| `StringGrammar.EveryStringHasALiteral` | eta/core/src/eta/reader/lexer.cpp:342-395 | every string of scalar values can be written as a literal |
| `StringErrors.MarksAre` | eta/core/src/eta/reader/lexer.cpp:342-376 | the marks of a string literal |
| `StringErrors.LettersStand` | eta/core/src/eta/reader/lexer.cpp:356-374 | the seven named escapes and what they stand for |
| `StringErrors.DigitsAre` | eta/core/src/eta/reader/lexer.cpp:444-460 | exactly the characters of the two digit tables are hexadecimal digits |
| `StringErrors.HexIsRead` | eta/core/src/eta/reader/lexer.cpp:444-479 | a number written in hexadecimal, in either case, reads as that number iff it is a scalar value |
| `StringErrors.UnterminatedFails` | eta/core/src/eta/reader/lexer.cpp:342-395 | after any pieces: the end, a last backslash and a newline leave the literal unterminated |
| `StringErrors.UnknownLetterFails` | eta/core/src/eta/reader/lexer.cpp:353-374 | any other letter after a backslash is an error |
| `StringErrors.HexFails` | eta/core/src/eta/reader/lexer.cpp:444-479 | missing digits, a missing semicolon, and a number that is no scalar value are errors |
| `StringErrors.BadBytesFail` | eta/core/src/eta/reader/lexer.cpp:380-393 | bytes that are no character fail as decoding them fails |
| `StringErrors.SurrogateFails` | eta/core/src/eta/reader/lexer.cpp:313-340 | an encoded surrogate is no code point |
| `StringErrors.CutShortFails` | eta/core/src/eta/reader/lexer.cpp:313-340 | every character cut short, by the end or by another byte, is malformed |
| `StringErrors.BadLeadFails` | eta/core/src/eta/reader/lexer.cpp:313-340 | so are bytes that start no character |
| `StringErrors.EncodingKeepsOrder` | eta/core/src/eta/reader/unicode.h:8-24 | encodings compare byte by byte as the code points do |
| `WindowsArgs.QuoteWindowsArg` | eta/cli/src/eta/cli/main_eta.cpp:249-282 | the loop with its backslash counter computes the quoted argument |
| `WindowsArgs.BuildWindowsCommandLine` | eta/cli/src/eta/cli/main_eta.cpp:284-292 | the program, then each argument, quoted |
| `WindowsArgs.ArgReadsBack` | eta/cli/src/eta/cli/main_eta.cpp:249-282 | by Microsoft's rules a quoted argument, followed by a blank or the end, reads back as the argument |
| `WindowsArgs.ArgsReadBack` | eta/cli/src/eta/cli/main_eta.cpp:284-292 | any list of arguments reads back |
| `WindowsArgs.ArgumentsSurvive` | eta/cli/src/eta/cli/main_eta.cpp:284-292 | all argument lists survive after a program name iff the name is safe |
| `WindowsArgs.QuoteFreeIsSafe` | eta/cli/src/eta/cli/main_eta.cpp:284-292 | a name without quotes is safe |
| `HeapPaths.FindPaths` | editors/vscode/src/heapView.ts:167-249 | terminates; at most one path, along child edges from an object that the named root is the first to list, shortest of all; one is found if the target is reachable and the search was not cut off; it is cut off only if there is more to reach |
| `HeapPaths.InitialFrontier` | editors/vscode/src/heapView.ts:194-203 | every distinct root object is queued once, under the first root that lists it |
| `HeapPaths.Expand` | editors/vscode/src/heapView.ts:235-245 | the children not seen before are marked and queued, one level deeper |
| `HeapPaths.Reconstruct` | editors/vscode/src/heapView.ts:205-221 | the parent chain, root first, with what inspection tells |
| `HeapPaths.NoShorterPath` | editors/vscode/src/heapView.ts:223-246 | when the target comes up, no path to it is shorter than its depth |
| `HeapPaths.NothingMissed` | editors/vscode/src/heapView.ts:223-246 | with the queue empty, whatever is reachable was processed |

## Left out

* Source spans, error messages, line and column tracking.
* The path of a manifest's file as a field of the manifest; canonicalisation of paths; downloads.
* Overflow of the schema version in `parse_integer`, which is undefined behaviour in the source.
* The lexer's recognition of numbers and identifiers: tokens arrive with their numeric text; text that the numeric parser would reject does not occur in a token.
* Module forms that `parse_toplevel` builds for `module`: the linker reads plain lists.
* `letrec*`, `def`, `defun`, `module`, `define-record-type`, `define-syntax`, `catch`, `raise` and the logic forms: `Expanders` answers `NotModelled` for them.
* A first `let*` binding that is no list of two elements, which is undefined behaviour in the source.
* `cond` clauses with only a test, `=>` clauses, and quotes nested in a template are not in the programs whose meaning is proved: what the code makes of them is in `OddForms`.
* Internal defines of the programs are in the bodies of `lambda`, `let`, named `let` and `let*`, spelled `(define name value)`; the other spelling is reduced to it by `OddForms.EitherSpelling`. A `letrec` body has none, because the code expands it under a `begin`.
* The names that a module body defines have their locations from the start, and using one before its definition has run is `Outside`. A `define` inside an expression is not in the programs.
* Macro use: the choice of a clause and the expansion of its output inside `expand_form`, and the renaming of definition contexts. The identities of names, the definitions in scope and the macros are parameters of `SyntaxRules`.
* Patterns and templates with a dotted tail: the tail is dropped, as in the source. A repetition variable with no value is the empty list where the source has a null pointer.
* In evaluation: mutable pairs and object identity, so `eqv?` on two pairs, vectors, strings or procedures is `Outside`; higher-order primitives; a `letrec` variable used before its initialisation, which is an error in R7RS, is `Outside`.
* Programs that rebind eqv? around a `case`, or cons, append or list->vector around a quasiquote, are `Outside`: the expansion would call the user's procedure.
* Fuel is spent by procedure calls and passes of `do` only; a lambda in operator position, also under a one-operand `and` or `or` or an immediate unquote, is applied without spending any, as its expansion is.
* Simulation.Simulates: relates a run to the direct meaning for equal fuel; it says nothing of a run that is `Outside`.
* SyntaxRulesInversion.RoundTripIffSurvives: for linear patterns of variables, data and lists; underscores and literals leave nothing in the bindings to give back.
* ExpansionMeaning.ExpansionPreservesMeaning: for programs without a captured named let; `ExpansionMeansUnlooped` is for all. No condition on the text alone is exact, since a captured name matters only where it is evaluated.
