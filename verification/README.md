# Packrat PEG engine of parser.js, modelled in Dafny

parser.js is a self-hosting packrat parser for parsing expression grammars.
Its core has three parts:

- **Grammar fragments.** There are seven kinds: nonterminal, string, regular
  expression, composite, lookahead, negative lookahead and repetition. A rule
  table maps a rule name to its ordered alternatives.
- **The memoizing matcher** (`Fragment.match`, `_match` and `_post`). It
  tries alternatives in order and threads a cursor through each one. It
  repeats greedily, looks ahead without consuming input, and applies each
  rule's action. It caches successful nonterminal results in a per-position
  memo table `memos[pos][name]`.
- **The bootstrap compiler and `parse`.** A fixed meta-grammar
  (`grammarRules`) and its meta-actions (`grammarActions`) turn grammar text
  into a rule table by running the same matcher. `parse` allocates a fresh
  memo table, runs the start rule at position 0, and accepts only a match of
  the whole input.

The modules:

- `Fragments`: the fragment datatype, `Bound` (`Infinity` is `Unbounded`),
  rule tables and the static constructors. `F.nt`, `F.str`, `F.composite`,
  `F.la` and `F.nla` are the datatype constructors; `Rep` is `F.rep` with its
  default bounds.
- `Regex`: the patterns the engine itself uses, which are greedy runs of one
  character class. It interprets these directly. Any other pattern is
  answered by an abstract engine parameter.
- `Values`: the dynamically typed values exchanged by the matcher and the
  actions, match records, and `_post`.
- `Semantics`: the matcher as pure functions that pass the memo table from
  call to call. Every call of `match` that misses the memo table and every
  turn of the repetition loop uses one unit of `fuel`.
- `Matcher`: the matcher as methods that update an
  `array<map<string, Match>>` in place. Each method is proved to compute
  exactly the outcome and the new memo table that `Semantics` gives.
- `Properties`: what the matcher promises. This covers ordered choice,
  consumed-length sums, post-processing, memo hits and stores, write-once
  memo cells, repetition and lookaheads.
- `Bootstrap`: the meta-grammar, the meta-actions and their properties.
- `Parser`: `parse`, both as a specification function and as a method.

A JavaScript throw is an `Abort` outcome that passes through every
enclosing match unchanged. This covers a missing rule, an action that throws,
and `bad grammar`. Running out of fuel is the `Abort(OutOfFuel)` outcome. It
stands for the source's unbounded recursion or loop.

Behaviours of parser.js that the model keeps exactly as written:

- Only successes are memoized: `match` returns before the memo write when
  `_match` gives `null` (parser.js:29-30, 51-53).
- A lookahead leaves `null` in the sub-value list (parser.js:160-161). The
  `fragment` meta-action relies on this placeholder by reading
  `match.value[1]` (parser.js:287-291).
- An action receives the whole match record (parser.js:47).
- Grammar text that does not compile makes `parse` throw `bad grammar`
  (parser.js:347-349).
- The repetition loop runs while `matches <= high` (parser.js:110), so it
  can take `high + 1` matches.

## Model

| member | source | states |
|---|---|---|
| Fragments.MakeRe | parser.js:171-173 | `F.re` anchors the pattern: the source is `^` followed by the pattern unchanged, one character longer |
| Regex.RunLength | parser.js:66-72 | the run is the longest prefix of the rest of the input whose characters are all in the class |
| Regex.RunMatch | parser.js:66-72 | a `*` run always matches; a `+` run matches iff the first character is in the class; a match is a maximal run |
| Regex.ParseRunSource | parser.js:66-72 | reading the source text of a class run back gives the same run, so the interpreted pattern is the one written |
| Regex.PrefixMatch | parser.js:66-72 | a pattern match never consumes more than the rest of the input |
| Values.PostProcessKeepsLength | parser.js:156-165 | `_post` keeps the consumed length; it gives `null` exactly for lookaheads; no STRING, RE or lookahead record survives in a value list |
| Semantics.MemoWrite | parser.js:51-53 | storing a completed NT record under its own name and position keeps every memo cell consistent with the input |
| Semantics.EmptyMemo | parser.js:353-356 | the fresh memo table has `input.length + 1` empty cells |
| Semantics.Eval | parser.js:23-57 | a success starts at `pos`, stays within the input, and has the fragment's kind; a leaf's value is exactly the consumed substring; a lookahead consumes nothing; the memo table stays consistent |
| Semantics.Act | parser.js:46-48 | applying an action changes only the record's `value` |
| Semantics.Complete | parser.js:41-56 | a non-NT record is returned without a memo write; an NT success is stored at exactly `memos[pos][name]` and nowhere else; a throwing action leaves the memo table alone; completion never yields `null` |
| Semantics.EvalBody | parser.js:59-151 | only STRING and RE answer with a bare length; records stay within the input; lookahead records consume nothing |
| Semantics.EvalAlternatives | parser.js:74-103 | the options loop answers with a record within the input, `null` or a throw, never a bare length |
| Semantics.EvalSequence | parser.js:82-95 | the cursor of one option never moves backwards or past the end of the input |
| Semantics.EvalRepetition | parser.js:105-125 | the repetition loop answers with a record within the input, `null` or a throw |
| Matcher.MatchFragment | parser.js:23-57 | `match` computes exactly the outcome and the new memo table of `Eval` |
| Matcher.MatchBody | parser.js:59-151 | `_match` computes exactly the answer and the new memo table of `EvalBody` |
| Matcher.MatchAlternatives | parser.js:74-103 | the options loop computes exactly `EvalAlternatives` from option 0 |
| Matcher.MatchSequence | parser.js:79-95 | the fragment loop of one option computes exactly `EvalSequence` from an empty sub-value list |
| Matcher.MatchRepetition | parser.js:105-125 | the `while (matches <= high)` loop computes exactly `EvalRepetition` from zero matches |
| Properties.StringFragment | parser.js:63-64 | a STRING matches iff the rest of the input starts with its text; it then consumes the text's length, its value is the text, the memo table is untouched, and it never throws |
| Properties.OrderedChoice | parser.js:74-103 | the winner is the first option whose whole sequence matches, with `alternative` its index and `consumed` its extent; every earlier option failed; `null` iff every option failed; a throw inside an option ends the choice |
| Properties.PostProcessAt | parser.js:156-165 | the sub-value a successful `match` contributes is the text of a STRING, the matched substring of an RE, `null` for a lookahead, and otherwise its record, starting at the position; its length is the consumed length |
| Properties.SequenceSums | parser.js:82-95 | an option matched to the end has one post-processed sub-value per fragment, after the earlier ones; sub-value k is what fragment k contributes at the start plus the lengths of the sub-values before it (the text of a STRING, the matched substring of an RE, `null` for a lookahead, otherwise the record of the fragment's kind starting there); the end is the start plus all their lengths |
| Properties.ChoiceConsumed | parser.js:78-103 | an NT or COMPOSITE record from the options loop names its winning option, holds one sub-value per fragment of it as `SequenceSums` describes them, and `consumed` is their total length |
| Properties.MemoHit | parser.js:24-26 | a filled memo cell is returned unchanged, without evaluation and without fuel |
| Properties.MemoStore | parser.js:44-53 | an NT success stores its record at `memos[pos][name]` with the body's consumed length and alternative, the rule's name, and the action's value (the body's value when there is no action) |
| Properties.FailureNotStored | parser.js:29-30 | an NT that fails or throws makes no memo write of its own |
| Properties.CompositeNotMemoized | parser.js:44-53 | a COMPOSITE result is the body's record, is not stored, and is not passed to an action |
| Properties.EvalKeeps | parser.js:51-53 | a memo cell filled before a `match` call holds the same record after it |
| Properties.BodyKeeps | parser.js:59-151 | a memo cell filled before a `_match` call holds the same record after it |
| Properties.AlternativesKeeps | parser.js:78-103 | the options loop keeps every filled memo cell |
| Properties.SequenceKeeps | parser.js:83-95 | the fragment loop keeps every filled memo cell |
| Properties.RepetitionKeeps | parser.js:110-120 | the repetition loop keeps every filled memo cell |
| Properties.EvalAvoids | parser.js:23-57 | `match` of a fragment that does not contain the nonterminal `name`, under rules whose bodies do not contain it, writes no memo cell for `name` |
| Properties.BodyAvoids | parser.js:59-151 | `_match` under such rules writes no memo cell for `name` |
| Properties.AlternativesAvoid | parser.js:78-103 | the options loop under such rules writes no memo cell for `name` |
| Properties.SequenceAvoids | parser.js:83-95 | the fragment loop under such rules writes no memo cell for `name` |
| Properties.RepetitionAvoids | parser.js:110-120 | the repetition loop under such rules writes no memo cell for `name` |
| Properties.FailedRuleUnwritten | parser.js:29-30 | a rule that no rule body calls and that fails or throws leaves no memo cell for itself |
| Properties.RepetitionVerdict | parser.js:110-125 | unless it throws, the loop succeeds iff the records it ends with number at least `low`; its value is those records and `times` is their number |
| Properties.RepetitionConsumed | parser.js:116-122 | the loop's `consumed` is the offset it started from plus the total length of the records it added |
| Properties.TakenRecords | parser.js:111-118 | every record the loop adds is a whole match record of the inner fragment |
| Properties.TakenBound | parser.js:110 | with a finite `high`, the loop ends with at most `high + 1` records |
| Properties.RepetitionMatch | parser.js:105-125 | REPETITION matches greedily; unless it throws, it succeeds iff at least `low` records are taken; value, `times` (at most `high + 1`) and `consumed` are those records, their number and their total length |
| Properties.OptionalTakesTwo | parser.js:110 | `'x'?` (bounds 0 and 1) takes both characters of "xx", because the guard admits a second match |
| Properties.LookaheadZeroWidth | parser.js:127-137 | LOOKAHEAD succeeds iff its inner fragment matches at the same position, consuming nothing with value `[]`; it fails iff the inner fragment fails |
| Properties.NegativeLookaheadZeroWidth | parser.js:139-146 | NEGATIVE_LOOKAHEAD succeeds iff its inner fragment fails at the same position, consuming nothing with value `[]` |
| Bootstrap.MetaPatternsAreRuns | parser.js:201-267 | the five patterns of the meta-grammar are greedy class runs, so compiling grammar text never needs a general regular-expression engine |
| Bootstrap.GrammarNotCalled | parser.js:197-268 | no rule of the meta-grammar calls `grammar`, so it is only ever the start rule |
| Bootstrap.AlternativesRoundTrip | parser.js:276-278 | reading back the list value of some alternatives gives exactly those alternatives |
| Bootstrap.LeafActions | parser.js:271-275 | for any `chars` or `identifier` sub-record carrying text t, a quoted string becomes STRING t and an identifier NT t; a pattern t between slashes becomes an anchored RE; `chars` and `identifier` pass the text on; `whitespace` gives `null` |
| Bootstrap.RepetitionSuffix | parser.js:279-286 | for any fragment sub-record and any suffix composite, `?`, `*` and `+` give the bounds [0, 1], [0, ∞) and [1, ∞); a suffix naming an `Object.prototype` property reads no bounds and gets `F.rep`'s defaults [0, ∞) (parser.js:183); any other suffix throws |
| Bootstrap.FragmentSkipsLookahead | parser.js:287-291 | the `fragment` action takes its fragment from the one sub-record of the composite at index 1, behind the slot the negative lookahead fills |
| Bootstrap.NormalFragmentWraps | parser.js:292-301 | whatever the last sub-record's rule, a `!` prefix wraps its fragment in a negative lookahead and a `&` prefix in a lookahead; alternatives 2-5 pass the fragment through |
| Bootstrap.EpsilonIsEmpty | parser.js:302-305 | `epsilon` yields the empty alternative |
| Bootstrap.OptionCollects | parser.js:306-308 | for any `fragment` and `ruleOptionSuffix` sub-records, a non-epsilon option is its first fragment followed by the fragments after it, in order |
| Bootstrap.SuffixActions | parser.js:311-338 | for any sub-records carrying a fragment or a list, the suffix actions put one more fragment before the rest, pass on the options after a `|`, give `[]` for alternative 1, and throw `unexpected` for any other alternative; `ruleSuffix` passes on its right-hand side |
| Bootstrap.RhsCollects | parser.js:323-327 | for any `ruleOption` and `ruleRhsSuffix` sub-records, the options of a right-hand side are the first option followed by the ones after each `|`, in order |
| Bootstrap.CompositeBuilds | parser.js:276-278 | for any `ruleRhs` sub-record listing some options, a parenthesised right-hand side becomes a composite of exactly those options |
| Bootstrap.RuleBuilds | parser.js:340 | for any `identifier` and `ruleSuffix` sub-records, a rule definition becomes the one-rule table from the name to exactly the listed options |
| Bootstrap.MergeAllLastWins | parser.js:341 | the merged table defines exactly the names some table defines, each with the options of the last table that defines it |
| Bootstrap.GrammarActionGivesRules | parser.js:341 | the `grammar` action returns a rule table whenever it returns |
| Bootstrap.GrammarMerges | parser.js:341 | for any repetition sub-record of `rule` records, the `grammar` action merges their one-rule tables in the order written |
| Bootstrap.RedefinitionReplaces | parser.js:341 | for any two `rule` records defining the same name, the grammar keeps only the second definition |
| Parser.Parse | parser.js:344-366 | `parse`, with its memo allocation loop and in-place matching, returns exactly `Parsed` |
| Parser.FullInputAccepted | parser.js:352-366 | with a rule table, a start rule that matched is accepted iff it consumed the whole input, and `parse` then returns its value; a throw while matching is thrown by `parse` |
| Parser.BadGrammarThrows | parser.js:345-349 | grammar text that the meta-grammar fails to match, or matches only in part, makes `parse` throw `bad grammar`, whatever the input |
| Parser.CompiledGrammarUsed | parser.js:345-350 | grammar text matched as a whole compiles to the rule table built by the `grammar` action, and the start rule then runs with it; a throw while compiling is thrown by `parse` |

## Left out

- index.js is not part of this model. It is an earlier prototype with module-level state and console output.
- The console and pretty-print helpers (parser.js:1-5) are output only.
- The chai `expect` checks inside the matcher (parser.js:36-37, 54-55, 90, 115, 157) hold by typing. The ones inside the meta-actions (parser.js:280-281, 289) are modelled as `Err` results.
- The JavaScript regular-expression engine is not modelled. Greedy runs of `\w`, `\d`, `\s`, `(\w|\d|_)` and `[^c]` are interpreted. Any other pattern is answered by an engine parameter, and an answer longer than the rest of the input counts as no match.
- `R.clone` (parser.js:131) is a plain copy: values have no identity in the model, so the aliasing it guards against cannot arise.
- Non-termination: left recursion and a zero-width fragment under an unbounded repetition recurse or loop forever in the source. Here they run out of fuel and give `Abort(OutOfFuel)`.
- The `default case` throw (parser.js:149) cannot occur, because the fragment datatype has exactly the seven kinds.
- An NT name is looked up with JavaScript's `in`, which also finds inherited `Object.prototype` properties such as `toString`. The model looks up only the table's own entries.
- A negative lookahead's record takes `name` from its inner fragment's `value` (parser.js:144). That value is kept only when it is a string, which is the case for NT, STRING and RE inner fragments.
- Strings are sequences of characters. JavaScript's UTF-16 code units are not distinguished from code points.
- Reading a missing element or a property of `null` in a meta-action gives `Err`. In JavaScript such a read gives `undefined`, and only a later use throws. Sub-values that are not fragments are also refused with `Err`, where JavaScript would build a malformed fragment. Neither case arises for text the meta-grammar matches.
- Properties.EvalKeeps: it shows that cells filled before a call keep their records. It does not exclude a nested evaluation of the same rule at the same position, which the outer evaluation then overwrites as the source does.
- Parser.FullInputAccepted: the result after a failed start rule is read from `memos[0]`, as the source reads it. The model does not show that this cell is then empty.
- A start rule whose action returns `null` is `Accepted(VNull)`. JavaScript's `null` result cannot tell this apart from a rejection. When grammar text compiles to a value that is not a rule table, the model throws `bad grammar`. Only a non-table value that is still truthy differs from the source this way, and the `grammar` action never returns one.
- Arbitrary user actions are a parameter: any function from a match record to a value or a throw.
- Memo soundness is not stated: that a stored cell equals what evaluating its rule at its position from scratch would give, so that results do not depend on which cells are already filled. Proving it needs fuel monotonicity of the whole matcher, which is beyond this model; the model proves the hit, the store, that filled cells keep their records, and that failures are not stored.
- No lemma runs the meta-grammar on a concrete grammar text from end to end. The meta-actions are proved for any sub-records carrying the right values, and `parse` is proved to use the table the `grammar` action builds, but the two are not chained for a sample grammar.
