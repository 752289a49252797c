/** `parse(ruleName, input, rules, actions)` of parser.js: compile grammar
    text with the meta-grammar when the grammar is given as text, allocate a
    fresh memo table, match the start rule at position 0, and accept only a
    match of the whole input. */
module Parser {
  import opened Wrappers
  import opened Fragments
  import opened Regex
  import opened Values
  import opened Semantics
  import opened Matcher
  import opened Bootstrap
  import Properties

  /** The `rules` argument: grammar text, or a rule table. */
  datatype Grammar = Text(source: string) | Table(rules: Rules)

  /** What `parse` returns or throws: the start rule's value, `null`, or an
      error. */
  datatype ParseResult = Accepted(value: Value) | Rejected | Thrown(error: Error)

  /** The last step of `parse`: the start rule's record in `memos[0]` is
      accepted when it consumed the whole input. */
  function Read(input: string, ruleName: string, cells: map<string, Match>): ParseResult {
    if ruleName in cells && cells[ruleName].consumed == |input| then Accepted(cells[ruleName].value)
    else Rejected
  }

  /** `parse` with a rule table: a thrown error passes through, otherwise
      the start rule's cell is read. */
  function RunRule(ruleName: string, input: string, rules: Rules, actions: map<string, Action>,
                   regex: Engine, fuel: nat): ParseResult
  {
    var c := Ctx(input, rules, actions, regex);
    var e := Eval(c, EmptyMemo(|input| + 1), NT(ruleName), 0, fuel);
    if e.0.Abort? then Thrown(e.0.error) else Read(input, ruleName, e.1[0])
  }

  /** Compiling grammar text: the `grammar` rule of the meta-grammar with the
      meta-actions; a rejected text throws `bad grammar`. */
  function Compile(source: string, regex: Engine, fuel: nat): ParseResult {
    match RunRule("grammar", source, GrammarRules(), GrammarActions(), regex, fuel)
    case Rejected => Thrown(BadGrammar)
    case Accepted(v) => if v.VRules? then Accepted(v) else Thrown(BadGrammar)
    case Thrown(e) => Thrown(e)
  }

  /** `parse`. */
  function Parsed(ruleName: string, input: string, grammar: Grammar, actions: map<string, Action>,
                  regex: Engine, fuel: nat): ParseResult
  {
    match grammar
    case Table(rules) => RunRule(ruleName, input, rules, actions, regex, fuel)
    case Text(source) =>
      match Compile(source, regex, fuel)
      case Accepted(v) => RunRule(ruleName, input, v.rules, actions, regex, fuel)
      case r => r
  }

  /** `parse`, step by step: compilation, the memo allocation loop, the match
      of the start rule in place, and the read of `memos[0][ruleName]`. */
  method Parse(ruleName: string, input: string, grammar: Grammar, actions: map<string, Action>,
               regex: Engine, fuel: nat)
    returns (r: ParseResult)
    ensures r == Parsed(ruleName, input, grammar, actions, regex, fuel)
    decreases if grammar.Text? then 1 else 0
  {
    var rules: Rules;
    match grammar {
      case Table(t) =>
        rules := t;
      case Text(source) =>
        var compiled := Parse("grammar", source, Table(GrammarRules()), GrammarActions(), regex, fuel);
        if compiled.Thrown? {
          return compiled;
        }
        if !(compiled.Accepted? && compiled.value.VRules?) {
          return Thrown(BadGrammar);
        }
        rules := compiled.value.rules;
    }
    var memos := new map<string, Match>[|input| + 1];
    var i := 0;
    while i < memos.Length
      invariant 0 <= i <= memos.Length
      invariant forall p | 0 <= p < i :: memos[p] == map[]
    {
      memos[i] := map[];
      i := i + 1;
    }
    assert memos[..] == EmptyMemo(|input| + 1);
    var c := Ctx(input, rules, actions, regex);
    var o := MatchFragment(c, memos, NT(ruleName), 0, fuel);
    if o.Abort? {
      return Thrown(o.error);
    }
    r := Read(input, ruleName, memos[0]);
  }

  // ---------------------------------------------------------------------
  // What `parse` promises

  /** With a rule table, a start rule that matched is accepted exactly when it
      consumed the whole input, and then `parse` returns its value (the
      action's value); an error thrown while matching is thrown by `parse`. */
  lemma FullInputAccepted(ruleName: string, input: string, rules: Rules, actions: map<string, Action>,
                          regex: Engine, fuel: nat)
    ensures var c := Ctx(input, rules, actions, regex);
            var o := Eval(c, EmptyMemo(|input| + 1), NT(ruleName), 0, fuel).0;
            var r := Parsed(ruleName, input, Table(rules), actions, regex, fuel);
      && (o.Abort? ==> r == Thrown(o.error))
      && (o.Success? ==> (r.Accepted? <==> o.m.consumed == |input|))
      && (o.Success? && o.m.consumed == |input| ==> r == Accepted(o.m.value))
      && (o.Success? && o.m.consumed != |input| ==> r == Rejected)
  {
    var c := Ctx(input, rules, actions, regex);
    if fuel > 0 {
      Properties.MemoStore(c, EmptyMemo(|input| + 1), ruleName, 0, fuel);
    }
  }

  /** Grammar text the meta-grammar matches only in part, or not at all, makes
      `parse` throw `bad grammar`, whatever the input. A failed `grammar`
      leaves its cell empty, because no meta-grammar rule calls `grammar`. */
  lemma BadGrammarThrows(ruleName: string, input: string, source: string, actions: map<string, Action>,
                         regex: Engine, fuel: nat)
    ensures var c := Ctx(source, GrammarRules(), GrammarActions(), regex);
            var o := Eval(c, EmptyMemo(|source| + 1), NT("grammar"), 0, fuel).0;
      o.Fail? || (o.Success? && o.m.consumed < |source|) ==>
        Parsed(ruleName, input, Text(source), actions, regex, fuel) == Thrown(BadGrammar)
  {
    FullInputAccepted("grammar", source, GrammarRules(), GrammarActions(), regex, fuel);
    var c := Ctx(source, GrammarRules(), GrammarActions(), regex);
    var memo := EmptyMemo(|source| + 1);
    GrammarNotCalled();
    Properties.FailedRuleUnwritten(c, memo, "grammar", 0, fuel, 2);
  }

  /** Grammar text the meta-grammar matches as a whole compiles to the rule
      table the `grammar` action built, and `parse` then runs the start rule
      with it; an error thrown while compiling is thrown by `parse`. */
  lemma CompiledGrammarUsed(ruleName: string, input: string, source: string, actions: map<string, Action>,
                            regex: Engine, fuel: nat)
    ensures var c := Ctx(source, GrammarRules(), GrammarActions(), regex);
            var o := Eval(c, EmptyMemo(|source| + 1), NT("grammar"), 0, fuel).0;
            var r := Parsed(ruleName, input, Text(source), actions, regex, fuel);
      && (o.Abort? ==> r == Thrown(o.error))
      && (o.Success? && o.m.consumed == |source| ==>
            o.m.value.VRules? && r == RunRule(ruleName, input, o.m.value.rules, actions, regex, fuel))
  {
    var c := Ctx(source, GrammarRules(), GrammarActions(), regex);
    FullInputAccepted("grammar", source, GrammarRules(), GrammarActions(), regex, fuel);
    if fuel > 0 {
      var memo := EmptyMemo(|source| + 1);
      Properties.MemoStore(c, memo, "grammar", 0, fuel);
      var o := Eval(c, memo, NT("grammar"), 0, fuel).0;
      var raw := EvalBody(c, memo, NT("grammar"), 0, fuel - 1).0;
      if o.Success? {
        assert "grammar" in c.actions;
        assert c.actions["grammar"] == GrammarAction;
        GrammarActionGivesRules(Match(KNT, 0, raw.consumed, raw.value, raw.alternative, raw.times, Some("grammar")));
      }
    }
  }
}
