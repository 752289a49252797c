/** The bootstrap grammar compiler of parser.js: the meta-grammar
    `grammarRules`, which describes grammar text, and the meta-actions
    `grammarActions`, which turn the parse of grammar text into a rule table.

    An action reads the match record of its rule: `match.value` is the list of
    post-processed sub-values of the winning alternative (a STRING or RE
    sub-match is its text, a lookahead is `null`, anything else is the whole
    sub-record, whose `value` is what that sub-rule's action returned). A read
    that would make JavaScript throw, such as `.value` of `null`, is an `Err`. */
module Bootstrap {
  import opened Wrappers
  import opened Fragments
  import opened Regex
  import opened Values
  import opened Semantics
  import Properties

  // ---------------------------------------------------------------------
  // The meta-grammar

  /** `grammarRules`. */
  function GrammarRules(): Rules {
    map[
      "grammar" := [[NT("whitespace"), Rep(NT("rule"), 1)]],
      "identifier" := [[MakeRe("(\\w|\\d|_)+")]],
      "arrow" := [[NT("whitespace"), Str("<-"), NT("whitespace")]],
      "rule" := [[NT("identifier"), NT("ruleSuffix")]],
      "ruleSuffix" := [[NT("arrow"), NT("ruleRhs"), NT("whitespace")]],
      "ruleRhs" := [[NT("ruleOption"), NT("ruleRhsSuffix")]],
      "ruleRhsSuffix" := [[NT("whitespace"), Str("|"), NT("whitespace"), NT("ruleRhs")], []],
      "ruleOption" := [[Str("epsilon")], [NT("fragment"), NT("ruleOptionSuffix")]],
      "ruleOptionSuffix" := [[NT("break"), NT("fragment"), NT("ruleOptionSuffix")], []],
      "fragment" := [[NegativeLookahead(Composite([[NT("identifier"), NT("arrow")]])),
                      Composite([[NT("repetition")], [NT("normalFragment")]])]],
      "normalFragment" := [[Str("!"), NT("fragment")],
                           [Str("&"), NT("fragment")],
                           [NT("composite")],
                           [NT("nonterminal")],
                           [NT("string")],
                           [NT("re")]],
      "repetition" := [[NT("normalFragment"), Composite([[Str("?")], [Str("*")], [Str("+")]])]],
      "composite" := [[Str("("), NT("ruleRhs"), Str(")")]],
      "nonterminal" := [[NT("identifier")]],
      "string" := [[Str("'"), NT("chars"), Str("'")]],
      "chars" := [[MakeRe("[^']*")]],
      "re" := [[Str("/"), MakeRe("[^/]+"), Str("/")]],
      "whitespace" := [[MakeRe("\\s*")]],
      "break" := [[MakeRe("\\s+")]]
    ]
  }

  /** The five patterns of the meta-grammar are class runs, which `Regex`
      interprets itself: compiling grammar text never consults the
      regular-expression engine. */
  lemma MetaPatternsAreRuns()
    ensures ParseRun(MakeRe("(\\w|\\d|_)+").source) == Some(Run(WordDigitUnderscore, true))
    ensures ParseRun(MakeRe("[^']*").source) == Some(Run(Except('\''), false))
    ensures ParseRun(MakeRe("[^/]+").source) == Some(Run(Except('/'), true))
    ensures ParseRun(MakeRe("\\s*").source) == Some(Run(Space, false))
    ensures ParseRun(MakeRe("\\s+").source) == Some(Run(Space, true))
  {
    PatternRun("(\\w|\\d|_)+", Run(WordDigitUnderscore, true));
    PatternRun("[^']*", Run(Except('\''), false));
    PatternRun("[^/]+", Run(Except('/'), true));
    PatternRun("\\s*", Run(Space, false));
    PatternRun("\\s+", Run(Space, true));
  }

  /** No rule of the meta-grammar calls `grammar`: it is only ever the start
      rule. */
  lemma GrammarNotCalled()
    ensures Properties.RulesAvoid(GrammarRules(), "grammar", 2)
  {
    var rules := GrammarRules();
    forall n | n in rules
      ensures Properties.OptionsAvoid(rules[n], "grammar", 2)
    {
      forall option, g | option in rules[n] && g in option
        ensures Properties.AvoidsTo(g, "grammar", 2)
      {
        if g.NT? {
          assert g != NT("grammar");
        } else if g.NegativeLookahead? {
          assert g == NegativeLookahead(Composite([[NT("identifier"), NT("arrow")]]));
        }
      }
    }
  }

  lemma PatternRun(pattern: string, run: Run)
    requires Writable(run.cls) && "^" + pattern == RunSource(run)
    ensures ParseRun(MakeRe(pattern).source) == Some(run)
  {
    ParseRunSource(run);
  }

  // ---------------------------------------------------------------------
  // Reading match records

  /** `v[i]` of a list value. */
  function At(v: Value, i: nat): (r: Result<Value>)
    ensures r.Ok? <==> v.VList? && i < |v.items|
    ensures r.Ok? ==> r.value == v.items[i]
  {
    if v.VList? && i < |v.items| then Ok(v.items[i]) else Err("TypeError: no such element")
  }

  /** `v.value` of a sub-record. */
  function Inner(v: Value): (r: Result<Value>)
    ensures r.Ok? <==> v.VRecord?
    ensures r.Ok? ==> r.value == v.m.value
  {
    if v.VRecord? then Ok(v.m.value) else Err("TypeError: not a match record")
  }

  /** `match.value[i].value`. */
  function Sub(m: Match, i: nat): Result<Value> {
    var v :- At(m.value, i);
    Inner(v)
  }

  function FragmentOf(v: Value): Result<Fragment> {
    if v.VFragment? then Ok(v.f) else Err("not a fragment")
  }

  function TextOf(v: Value): Result<string> {
    if v.VText? then Ok(v.text) else Err("not a string")
  }

  function ItemsOf(v: Value): Result<seq<Value>> {
    if v.VList? then Ok(v.items) else Err("TypeError: not iterable")
  }

  /** A list of fragment values as the fragments of one alternative. */
  function ToOption(vs: seq<Value>): (r: Result<seq<Fragment>>)
    ensures r.Ok? ==> |r.value| == |vs| && forall i | 0 <= i < |vs| :: vs[i] == VFragment(r.value[i])
  {
    if vs == [] then Ok([])
    else
      var f :- FragmentOf(vs[0]);
      var rest :- ToOption(vs[1..]);
      Ok([f] + rest)
  }

  /** A list of alternatives (lists of fragment values) as a rule's options. */
  function ToAlternatives(v: Value): (r: Result<seq<seq<Fragment>>>)
    ensures r.Ok? ==> v.VList? && |r.value| == |v.items|
  {
    var items :- ItemsOf(v);
    ToAlternativesFrom(items)
  }

  function ToAlternativesFrom(vs: seq<Value>): (r: Result<seq<seq<Fragment>>>)
    ensures r.Ok? ==> |r.value| == |vs|
  {
    if vs == [] then Ok([])
    else
      var items :- ItemsOf(vs[0]);
      var option :- ToOption(items);
      var rest :- ToAlternativesFrom(vs[1..]);
      Ok([option] + rest)
  }

  /** The alternatives as the list value the actions build for them. */
  function AlternativesValue(alts: seq<seq<Fragment>>): Value {
    VList(seq(|alts|, i requires 0 <= i < |alts| => OptionValue(alts[i])))
  }

  function OptionValue(option: seq<Fragment>): Value {
    VList(seq(|option|, i requires 0 <= i < |option| => VFragment(option[i])))
  }

  /** Reading back the list value of some alternatives gives the alternatives. */
  lemma {:induction false} AlternativesRoundTrip(alts: seq<seq<Fragment>>)
    ensures ToAlternatives(AlternativesValue(alts)) == Ok(alts)
  {
    var vs := AlternativesValue(alts).items;
    AlternativesFromRoundTrip(alts, vs);
  }

  lemma {:induction false} AlternativesFromRoundTrip(alts: seq<seq<Fragment>>, vs: seq<Value>)
    requires |vs| == |alts| && forall i | 0 <= i < |alts| :: vs[i] == OptionValue(alts[i])
    ensures ToAlternativesFrom(vs) == Ok(alts)
    decreases |alts|
  {
    if alts != [] {
      OptionRoundTrip(alts[0], OptionValue(alts[0]).items);
      AlternativesFromRoundTrip(alts[1..], vs[1..]);
      assert [alts[0]] + alts[1..] == alts;
    }
  }

  lemma {:induction false} OptionRoundTrip(option: seq<Fragment>, vs: seq<Value>)
    requires |vs| == |option| && forall i | 0 <= i < |option| :: vs[i] == VFragment(option[i])
    ensures ToOption(vs) == Ok(option)
    decreases |option|
  {
    if option != [] {
      OptionRoundTrip(option[1..], vs[1..]);
      assert [option[0]] + option[1..] == option;
    }
  }

  // ---------------------------------------------------------------------
  // The meta-actions

  /** `whitespace: match => null`. */
  function WhitespaceAction(m: Match): Result<Value> {
    Ok(VNull)
  }

  /** `chars: match => match.value[0]`: the text the pattern matched. */
  function CharsAction(m: Match): Result<Value> {
    At(m.value, 0)
  }

  /** `string: match => F.str(match.value[1].value)`. */
  function StringAction(m: Match): Result<Value> {
    var v :- Sub(m, 1);
    var t :- TextOf(v);
    Ok(VFragment(Str(t)))
  }

  /** `nonterminal: match => F.nt(match.value[0].value)`. */
  function NonterminalAction(m: Match): Result<Value> {
    var v :- Sub(m, 0);
    var t :- TextOf(v);
    Ok(VFragment(NT(t)))
  }

  /** `re: match => F.re(match.value[1])`: the pattern text between the slashes. */
  function ReAction(m: Match): Result<Value> {
    var v :- At(m.value, 1);
    var t :- TextOf(v);
    Ok(VFragment(MakeRe(t)))
  }

  /** `composite: match => F.composite(match.value[1].value)`. */
  function CompositeAction(m: Match): Result<Value> {
    var v :- Sub(m, 1);
    var alts :- ToAlternatives(v);
    Ok(VFragment(Composite(alts)))
  }

  /** The names an object literal inherits from `Object.prototype`. */
  const InheritedKeys: set<string> := {
    "constructor", "__proto__", "hasOwnProperty", "isPrototypeOf", "propertyIsEnumerable",
    "toString", "toLocaleString", "valueOf",
    "__defineGetter__", "__defineSetter__", "__lookupGetter__", "__lookupSetter__"
  }

  /** The bounds table `{ "?": [0, 1], "*": [0, Infinity], "+": [1, Infinity] }`.
      An inherited key reads a function or an object, whose `[0]` and `[1]`
      are `undefined`, so `F.rep` falls back to its defaults 0 and `Infinity`;
      any other key reads `undefined`, and `times[0]` then throws. */
  function SuffixBounds(v: Value): Result<(nat, Bound)> {
    if v == VText("?") then Ok((0, Finite(1)))
    else if v == VText("*") then Ok((0, Unbounded))
    else if v == VText("+") then Ok((1, Unbounded))
    else if v.VText? && v.text in InheritedKeys then Ok((0, Unbounded))
    else Err("TypeError: no bounds")
  }

  /** `repetition`: the two `expect` checks, then `F.rep(fragment, low, high)`
      with the bounds of the suffix character. */
  function RepetitionAction(m: Match): Result<Value> {
    if !(m.value.VList? && |m.value.items| == 2) then Err("AssertionError: expected an array of length 2")
    else
      var suffix :- Sub(m, 1);
      if !(suffix.VList? && |suffix.items| == 1) then Err("AssertionError: expected an array of length 1")
      else
        var fv :- Sub(m, 0);
        var f :- FragmentOf(fv);
        var bounds :- SuffixBounds(suffix.items[0]);
        Ok(VFragment(Rep(f, bounds.0, bounds.1)))
  }

  /** `fragment`: the one sub-value of the composite after the negative
      lookahead, which sits in `match.value[1]` because the lookahead left a
      `null` in `match.value[0]`. */
  function FragmentAction(m: Match): Result<Value> {
    var composite :- At(m.value, 1);
    var inner :- Inner(composite);
    if !(inner.VList? && |inner.items| == 1) then Err("AssertionError: expected an array of length 1")
    else Inner(inner.items[0])
  }

  /** `normalFragment`: the last sub-value's value, under `nla` for the `!`
      alternative (0) and under `la` for the `&` alternative (1). */
  function NormalFragmentAction(m: Match): Result<Value> {
    var items :- ItemsOf(m.value);
    if |items| == 0 then Err("TypeError: no element")
    else
      var v :- Inner(items[|items| - 1]);
      if m.alternative == Some(0) then
        var f :- FragmentOf(v);
        Ok(VFragment(NegativeLookahead(f)))
      else if m.alternative == Some(1) then
        var f :- FragmentOf(v);
        Ok(VFragment(Lookahead(f)))
      else Ok(v)
  }

  /** `[head, ...rest]`. */
  function Cons(head: Value, rest: Value): Result<Value> {
    var items :- ItemsOf(rest);
    Ok(VList([head] + items))
  }

  /** `ruleOption`: `epsilon` (alternative 0) is the empty alternative;
      otherwise the first fragment followed by the rest. */
  function RuleOptionAction(m: Match): Result<Value> {
    if m.alternative == Some(0) then Ok(VList([]))
    else
      var head :- Sub(m, 0);
      var rest :- Sub(m, 1);
      Cons(head, rest)
  }

  /** `ruleOptionSuffix`: one more fragment after a line break, or nothing. */
  function RuleOptionSuffixAction(m: Match): Result<Value> {
    if m.alternative == Some(0) then
      var head :- Sub(m, 1);
      var rest :- Sub(m, 2);
      Cons(head, rest)
    else if m.alternative == Some(1) then Ok(VList([]))
    else Err("unexpected")
  }

  /** `ruleRhs`: the first option followed by the others. */
  function RuleRhsAction(m: Match): Result<Value> {
    var head :- Sub(m, 0);
    var rest :- Sub(m, 1);
    Cons(head, rest)
  }

  /** `ruleRhsSuffix`: the options after a `|`, or none. */
  function RuleRhsSuffixAction(m: Match): Result<Value> {
    if m.alternative == Some(0) then Sub(m, 3)
    else if m.alternative == Some(1) then Ok(VList([]))
    else Err("unexpected")
  }

  /** `ruleSuffix: match => match.value[1].value`. */
  function RuleSuffixAction(m: Match): Result<Value> {
    Sub(m, 1)
  }

  /** `identifier: match => match.value[0]`. */
  function IdentifierAction(m: Match): Result<Value> {
    At(m.value, 0)
  }

  /** `rule`: a one-rule table `{ [name]: options }`. */
  function RuleAction(m: Match): Result<Value> {
    var nv :- Sub(m, 0);
    var name :- TextOf(nv);
    var ov :- Sub(m, 1);
    var alts :- ToAlternatives(ov);
    Ok(VRules(map[name := alts]))
  }

  /** `R.mergeAll`: the union of the tables, a later table's entry replacing
      an earlier one's. */
  function MergeAll(tables: seq<Rules>): Rules {
    if tables == [] then map[] else MergeAll(tables[..|tables| - 1]) + tables[|tables| - 1]
  }

  /** The tables the `rule` sub-records returned. */
  function TablesOf(vs: seq<Value>): (r: Result<seq<Rules>>)
    ensures r.Ok? ==> |r.value| == |vs| && forall i | 0 <= i < |vs| :: vs[i].VRecord? && vs[i].m.value == VRules(r.value[i])
  {
    if vs == [] then Ok([])
    else
      var v :- Inner(vs[0]);
      if !v.VRules? then Err("not a rule table")
      else
        var rest :- TablesOf(vs[1..]);
        Ok([v.rules] + rest)
  }

  /** `grammar`: the merge of the one-rule tables of the repeated `rule`. */
  function GrammarAction(m: Match): Result<Value> {
    var records :- Sub(m, 1);
    var items :- ItemsOf(records);
    var tables :- TablesOf(items);
    Ok(VRules(MergeAll(tables)))
  }

  /** `grammarActions`. */
  function GrammarActions(): map<string, Action> {
    map[
      "whitespace" := WhitespaceAction,
      "chars" := CharsAction,
      "string" := StringAction,
      "nonterminal" := NonterminalAction,
      "re" := ReAction,
      "composite" := CompositeAction,
      "repetition" := RepetitionAction,
      "fragment" := FragmentAction,
      "normalFragment" := NormalFragmentAction,
      "ruleOption" := RuleOptionAction,
      "ruleOptionSuffix" := RuleOptionSuffixAction,
      "ruleRhs" := RuleRhsAction,
      "ruleRhsSuffix" := RuleRhsSuffixAction,
      "ruleSuffix" := RuleSuffixAction,
      "identifier" := IdentifierAction,
      "rule" := RuleAction,
      "grammar" := GrammarAction
    ]
  }

  // ---------------------------------------------------------------------
  // What the meta-actions promise

  /** `match.value` is a list of `n` sub-values. */
  predicate Items(m: Match, n: nat) {
    m.value.VList? && |m.value.items| == n
  }

  /** A sub-value that is the match record of a sub-rule whose action
      returned `v`. The meta-actions read nothing of a sub-record but its
      `value`, so its start, length and alternative are left open. */
  predicate Carries(sub: Value, v: Value) {
    sub.VRecord? && sub.m.value == v
  }

  /** The leaf actions: a quoted string becomes a STRING fragment of the text
      between the quotes, an identifier an NT fragment naming it, a pattern
      between slashes an anchored RE fragment; `identifier` and `chars` pass
      the matched text on, and `whitespace` drops it. */
  lemma LeafActions(m: Match, text: string)
    ensures Items(m, 3) && Carries(m.value.items[1], VText(text)) ==>
              StringAction(m) == Ok(VFragment(Str(text)))
    ensures Items(m, 1) && Carries(m.value.items[0], VText(text)) ==>
              NonterminalAction(m) == Ok(VFragment(NT(text)))
    ensures Items(m, 3) && m.value.items[1] == VText(text) ==>
              ReAction(m) == Ok(VFragment(MakeRe(text)))
    ensures Items(m, 1) && m.value.items[0] == VText(text) ==>
              IdentifierAction(m) == Ok(VText(text)) && CharsAction(m) == Ok(VText(text))
    ensures WhitespaceAction(m) == Ok(VNull)
  {
  }

  /** The list-building suffix actions: one more fragment (or option) before
      the rest for alternative 0, nothing for alternative 1, and the
      `unexpected` throw for any other alternative; `ruleSuffix` passes on the
      options of its right-hand side. */
  lemma SuffixActions(m: Match, f: Fragment, rest: seq<Value>)
    ensures m.alternative == Some(0) && Items(m, 3) &&
            Carries(m.value.items[1], VFragment(f)) && Carries(m.value.items[2], VList(rest)) ==>
              RuleOptionSuffixAction(m) == Ok(VList([VFragment(f)] + rest))
    ensures m.alternative == Some(0) && Items(m, 4) && Carries(m.value.items[3], VList(rest)) ==>
              RuleRhsSuffixAction(m) == Ok(VList(rest))
    ensures m.alternative == Some(1) ==> RuleOptionSuffixAction(m) == Ok(VList([])) && RuleRhsSuffixAction(m) == Ok(VList([]))
    ensures m.alternative != Some(0) && m.alternative != Some(1) ==>
              RuleOptionSuffixAction(m) == Err("unexpected") && RuleRhsSuffixAction(m) == Err("unexpected")
    ensures Items(m, 3) && Carries(m.value.items[1], VList(rest)) ==> RuleSuffixAction(m) == Ok(VList(rest))
  {
  }

  /** `?`, `*` and `+` give the bounds [0, 1], [0, ∞) and [1, ∞); a name
      inherited from `Object.prototype` gives `F.rep`'s default bounds
      [0, ∞); any other suffix throws. */
  lemma RepetitionSuffix(f: Fragment, suffix: string, m: Match)
    requires Items(m, 2) && Carries(m.value.items[0], VFragment(f))
    requires Carries(m.value.items[1], VList([VText(suffix)]))
    ensures suffix == "?" ==> RepetitionAction(m) == Ok(VFragment(Repetition(f, 0, Finite(1))))
    ensures suffix == "*" ==> RepetitionAction(m) == Ok(VFragment(Repetition(f, 0, Unbounded)))
    ensures suffix == "+" ==> RepetitionAction(m) == Ok(VFragment(Repetition(f, 1, Unbounded)))
    ensures suffix in InheritedKeys ==> RepetitionAction(m) == Ok(VFragment(Repetition(f, 0, Unbounded)))
    ensures suffix !in {"?", "*", "+"} && suffix !in InheritedKeys ==> RepetitionAction(m).Err?
  {
  }

  /** A `!` prefix wraps the fragment in a negative lookahead, a `&` prefix in
      a lookahead; the other alternatives pass the value of their last
      sub-record through. */
  lemma NormalFragmentWraps(m: Match, f: Fragment)
    requires m.value.VList? && |m.value.items| > 0
    requires Carries(m.value.items[|m.value.items| - 1], VFragment(f))
    ensures m.alternative == Some(0) ==> NormalFragmentAction(m) == Ok(VFragment(NegativeLookahead(f)))
    ensures m.alternative == Some(1) ==> NormalFragmentAction(m) == Ok(VFragment(Lookahead(f)))
    ensures m.alternative != Some(0) && m.alternative != Some(1) ==> NormalFragmentAction(m) == Ok(VFragment(f))
  {
  }

  /** Any other alternative of `ruleOption` is its first fragment followed
      by the fragments of `ruleOptionSuffix`. */
  lemma OptionCollects(m: Match, f: Fragment, rest: seq<Value>)
    requires m.alternative != Some(0) && Items(m, 2)
    requires Carries(m.value.items[0], VFragment(f)) && Carries(m.value.items[1], VList(rest))
    ensures RuleOptionAction(m) == Ok(VList([VFragment(f)] + rest))
  {
  }

  /** `epsilon` is the empty alternative, whatever the rest of the record. */
  lemma EpsilonIsEmpty(m: Match)
    requires m.alternative == Some(0)
    ensures RuleOptionAction(m) == Ok(VList([]))
  {
  }

  /** The `fragment` action finds its fragment at index 1, behind the slot of
      the negative lookahead: the one sub-record of the composite there. */
  lemma FragmentSkipsLookahead(m: Match, f: Fragment, inner: Value)
    requires Items(m, 2) && Carries(m.value.items[1], VList([inner])) && Carries(inner, VFragment(f))
    ensures FragmentAction(m) == Ok(VFragment(f))
  {
  }

  /** A parenthesised right-hand side becomes a composite of exactly the
      options the `ruleRhs` action listed. */
  lemma CompositeBuilds(m: Match, alts: seq<seq<Fragment>>)
    requires Items(m, 3) && Carries(m.value.items[1], AlternativesValue(alts))
    ensures CompositeAction(m) == Ok(VFragment(Composite(alts)))
  {
    AlternativesRoundTrip(alts);
  }

  /** A rule definition becomes the one-rule table from its name to exactly
      the options the `ruleSuffix` action listed. */
  lemma RuleBuilds(m: Match, name: string, alts: seq<seq<Fragment>>)
    requires Items(m, 2) && Carries(m.value.items[0], VText(name))
    requires Carries(m.value.items[1], AlternativesValue(alts))
    ensures RuleAction(m) == Ok(VRules(map[name := alts]))
  {
    AlternativesRoundTrip(alts);
  }

  /** The options of a right-hand side are its first option followed by the
      ones after each `|`, in the order written. */
  lemma RhsCollects(m: Match, first: Value, rest: seq<Value>)
    requires Items(m, 2) && Carries(m.value.items[0], first) && Carries(m.value.items[1], VList(rest))
    ensures RuleRhsAction(m) == Ok(VList([first] + rest))
  {
  }

  /** The merged table defines exactly the names some table defines, and each
      with the options of the last table that defines it. */
  lemma {:induction false} MergeAllLastWins(tables: seq<Rules>, name: string)
    ensures name in MergeAll(tables) <==> exists i | 0 <= i < |tables| :: name in tables[i]
    ensures forall i | 0 <= i < |tables| && name in tables[i] && (forall j | i < j < |tables| :: name !in tables[j])
              :: name in MergeAll(tables) && MergeAll(tables)[name] == tables[i][name]
    decreases |tables|
  {
    if tables != [] {
      var n := |tables| - 1;
      var init := tables[..n];
      MergeAllLastWins(init, name);
      assert forall i | 0 <= i < n :: init[i] == tables[i];
      if name !in tables[n] {
        assert (exists i | 0 <= i < |tables| :: name in tables[i]) <==> (exists i | 0 <= i < n :: name in init[i]);
      }
    }
  }

  /** The grammar action returns a rule table whenever it returns. */
  lemma GrammarActionGivesRules(m: Match)
    ensures GrammarAction(m).Ok? ==> GrammarAction(m).value.VRules?
  {
  }

  /** The `rule` sub-records the repetition lists, each carrying a one-rule table. */
  predicate CarriesTables(rs: seq<Value>, tables: seq<Rules>) {
    |rs| == |tables| && forall i | 0 <= i < |rs| :: Carries(rs[i], VRules(tables[i]))
  }

  lemma {:induction false} TablesOfCarried(rs: seq<Value>, tables: seq<Rules>)
    requires CarriesTables(rs, tables)
    ensures TablesOf(rs) == Ok(tables)
    decreases |rs|
  {
    if rs != [] {
      TablesOfCarried(rs[1..], tables[1..]);
      assert [tables[0]] + tables[1..] == tables;
    }
  }

  /** The grammar action merges the tables of the rules in the order they
      were written. */
  lemma GrammarMerges(m: Match, rs: seq<Value>, tables: seq<Rules>)
    requires Items(m, 2) && Carries(m.value.items[1], VList(rs)) && CarriesTables(rs, tables)
    ensures GrammarAction(m) == Ok(VRules(MergeAll(tables)))
  {
    TablesOfCarried(rs, tables);
  }

  /** A grammar that defines a rule twice keeps the second definition. */
  lemma RedefinitionReplaces(m: Match, rs: seq<Value>, name: string, first: seq<seq<Fragment>>, second: seq<seq<Fragment>>)
    requires Items(m, 2) && Carries(m.value.items[1], VList(rs))
    requires CarriesTables(rs, [map[name := first], map[name := second]])
    ensures GrammarAction(m) == Ok(VRules(map[name := second]))
  {
    var tables := [map[name := first], map[name := second]];
    GrammarMerges(m, rs, tables);
    var merged := MergeAll(tables);
    forall n
      ensures n in merged <==> n == name
    {
      MergeAllLastWins(tables, n);
    }
    MergeAllLastWins(tables, name);
    assert merged == map[name := second];
  }
}
