/** What the matcher of parser.js promises, stated about `Semantics` and
    therefore, through the contracts of `Matcher`, about the methods. */
module Properties {
  import opened Wrappers
  import opened Fragments
  import opened Values
  import opened Semantics

  // ---------------------------------------------------------------------
  // Leaves

  /** A STRING fragment matches iff the rest of the input starts with its text;
      it then consumes the text's length and its value is that substring. It
      never touches the memo table and never throws. */
  lemma StringFragment(c: Ctx, memo: Memo, t: string, pos: nat, fuel: nat)
    requires MemoOk(c, memo) && pos <= |c.input| && fuel > 0
    ensures var (o, memo') := Eval(c, memo, Str(t), pos, fuel);
      && memo' == memo
      && !o.Abort?
      && (o.Success? <==> t <= c.input[pos..])
      && (o.Success? ==> o.m.consumed == |t| && o.m.value == VText(t) && o.m.kind == KString && o.m.start == pos)
  {
    if t <= c.input[pos..] {
      assert c.input[pos..pos + |t|] == t;
    }
  }

  // ---------------------------------------------------------------------
  // Ordered choice

  /** The outcomes of the options tried, in order, from option `i` on: every
      option that stops hands its memo writes to the next; the first one that
      does not stop ends the list. */
  ghost function Attempts(c: Ctx, memo: Memo, alts: seq<seq<Fragment>>, i: nat, pos: nat, fuel: nat): seq<SeqOutcome>
    requires MemoOk(c, memo) && pos <= |c.input| && i <= |alts|
    decreases |alts| - i
  {
    if i == |alts| then []
    else
      var (s, memo1) := EvalSequence(c, memo, alts[i], 0, pos, [], fuel);
      if s.Stopped? then [s] + Attempts(c, memo1, alts, i + 1, pos, fuel) else [s]
  }

  /** Ordered choice: the winner is the first option whose whole fragment
      sequence matches, `alternative` is its index and `consumed` its extent;
      every earlier option failed; the result is `null` only when every option
      failed, and an error thrown inside an option ends the choice. */
  lemma {:induction false} OrderedChoice(c: Ctx, memo: Memo, alts: seq<seq<Fragment>>, i: nat, pos: nat, fuel: nat)
    requires MemoOk(c, memo) && pos <= |c.input| && i <= |alts|
    ensures var r := EvalAlternatives(c, memo, alts, i, pos, fuel).0;
            var a := Attempts(c, memo, alts, i, pos, fuel);
      && |a| <= |alts| - i
      && (forall k | 0 <= k < |a| - 1 :: a[k].Stopped?)
      && (r.Record? <==> |a| > 0 && a[|a| - 1].Done?)
      && (r.Record? ==> r.alternative == Some(i + |a| - 1) && r.consumed == a[|a| - 1].end - pos
                        && r.value == VList(a[|a| - 1].subs) && r.times.None? && r.name.None?)
      && (r.NoMatch? <==> |a| == |alts| - i && forall k | 0 <= k < |a| :: a[k].Stopped?)
      && (r.Raised? <==> |a| > 0 && a[|a| - 1].Halted?)
    decreases |alts| - i
  {
    if i < |alts| {
      var (s, memo1) := EvalSequence(c, memo, alts[i], 0, pos, [], fuel);
      if s.Stopped? {
        OrderedChoice(c, memo1, alts, i + 1, pos, fuel);
        var a := Attempts(c, memo1, alts, i + 1, pos, fuel);
        assert Attempts(c, memo, alts, i, pos, fuel) == [s] + a;
      }
    }
  }

  /** What `_post` leaves of a match of `f` at `p`: the text of a STRING, the
      matched substring of an RE, `null` for a lookahead, and otherwise the
      whole record, of `f`'s kind and starting at `p`. */
  predicate SubValueAt(input: string, f: Fragment, v: Value, p: nat) {
    match f
    case Str(t) => v == VText(t) && p + |t| <= |input| && input[p..p + |t|] == t
    case Re(_) => v.VText? && p + |v.text| <= |input| && input[p..p + |v.text|] == v.text
    case Lookahead(_) => v == VNull
    case NegativeLookahead(_) => v == VNull
    case _ => v.VRecord? && v.m.kind == KindOf(f) && v.m.start == p
  }

  /** The sub-value a successful `match` of `f` at `pos` contributes. */
  lemma PostProcessAt(c: Ctx, memo: Memo, f: Fragment, pos: nat, fuel: nat)
    requires MemoOk(c, memo) && pos <= |c.input|
    ensures var o := Eval(c, memo, f, pos, fuel).0;
      o.Success? ==> SubValueAt(c.input, f, PostProcess(o.m), pos) && ConsumedOf(PostProcess(o.m)) == o.m.consumed
  {
    var o := Eval(c, memo, f, pos, fuel).0;
    if o.Success? {
      PostProcessKeepsLength(c.input, o.m, pos);
      if f.Str? {
        StringFragment(c, memo, f.text, pos, fuel);
      }
    }
  }

  /** `out` is `subs` followed by one sub-value per fragment from `j` on,
      each what its fragment contributes at `start` plus the lengths of the
      sub-values before it, and `end` is `start` plus all their lengths. */
  predicate SubValuesAt(input: string, frags: seq<Fragment>, j: nat, start: nat, subs: seq<Value>, out: seq<Value>, end: nat)
    requires j <= |frags|
  {
    && |out| == |subs| + |frags| - j
    && out[..|subs|] == subs
    && end == start + TotalConsumed(out[|subs|..])
    && forall k | j <= k < |frags| ::
         SubValueAt(input, frags[k], out[|subs| + (k - j)], start + TotalConsumed(out[|subs|..|subs| + (k - j)]))
  }

  /** One option matched to the end: one post-processed sub-value per
      fragment, appended after the ones already there; sub-value `k` is what
      fragment `k` contributes at the start plus the lengths before it, and
      the cursor ends at the start plus all their lengths. */
  lemma {:induction false} SequenceSums(c: Ctx, memo: Memo, frags: seq<Fragment>, j: nat, start: nat, subs: seq<Value>, fuel: nat)
    requires MemoOk(c, memo) && start <= |c.input| && j <= |frags|
    ensures var s := EvalSequence(c, memo, frags, j, start, subs, fuel).0;
      s.Done? ==> SubValuesAt(c.input, frags, j, start, subs, s.subs, s.end)
    decreases |frags| - j
  {
    if j == |frags| {
      assert subs[|subs|..] == [];
    } else {
      var (o, memo1) := Eval(c, memo, frags[j], start, fuel);
      if o.Success? {
        var v := PostProcess(o.m);
        PostProcessAt(c, memo, frags[j], start, fuel);
        SequenceSums(c, memo1, frags, j + 1, start + o.m.consumed, subs + [v], fuel);
        var s := EvalSequence(c, memo1, frags, j + 1, start + o.m.consumed, subs + [v], fuel).0;
        if s.Done? {
          SubValuesShift(c.input, frags, j, start, subs, v, s.subs, s.end);
        }
      }
    }
  }

  /** The step of `SequenceSums`: one more sub-value in front. */
  lemma SubValuesShift(input: string, frags: seq<Fragment>, j: nat, start: nat, subs: seq<Value>, v: Value,
                       out: seq<Value>, end: nat)
    requires j < |frags| && SubValueAt(input, frags[j], v, start)
    requires SubValuesAt(input, frags, j + 1, start + ConsumedOf(v), subs + [v], out, end)
    ensures SubValuesAt(input, frags, j, start, subs, out, end)
  {
    var subs' := subs + [v];
    var rest := out[|subs'|..];
    assert out[|subs|..] == [v] + rest by {
      assert out[..|subs'|] == subs';
    }
    assert TotalConsumed([v] + rest) == ConsumedOf(v) + TotalConsumed(rest) by {
      assert ([v] + rest)[1..] == rest;
    }
    assert out[..|subs|] == subs by {
      assert out[..|subs|] == out[..|subs'|][..|subs|];
    }
    forall k | j <= k < |frags|
      ensures SubValueAt(input, frags[k], out[|subs| + (k - j)], start + TotalConsumed(out[|subs|..|subs| + (k - j)]))
    {
      if k == j {
        assert out[|subs|] == out[..|subs'|][|subs|];
        assert out[|subs|..|subs|] == [];
      } else {
        var before := out[|subs|..|subs| + (k - j)];
        assert before == [v] + out[|subs'|..|subs'| + (k - (j + 1))];
        assert before[1..] == out[|subs'|..|subs'| + (k - (j + 1))];
      }
    }
  }

  /** An NT or COMPOSITE body that matched names its winning option, holds
      one post-processed sub-value per fragment of it, sub-value `k` being what
      fragment `k` contributes after the ones before it, and consumed the sum
      of their lengths. */
  predicate ChoiceValue(input: string, alts: seq<seq<Fragment>>, i: nat, pos: nat, r: Raw) {
    r.Record? ==>
      && r.alternative.Some? && i <= r.alternative.value < |alts|
      && r.value.VList?
      && SubValuesAt(input, alts[r.alternative.value], 0, pos, [], r.value.items, pos + r.consumed)
  }

  /** The value of an NT or COMPOSITE body that matched, with the options
      loop started at any option `i`. */
  lemma {:induction false} ChoiceConsumed(c: Ctx, memo: Memo, alts: seq<seq<Fragment>>, i: nat, pos: nat, fuel: nat)
    requires MemoOk(c, memo) && pos <= |c.input| && i <= |alts|
    ensures ChoiceValue(c.input, alts, i, pos, EvalAlternatives(c, memo, alts, i, pos, fuel).0)
    decreases |alts| - i
  {
    if i < |alts| {
      var (s, memo1) := EvalSequence(c, memo, alts[i], 0, pos, [], fuel);
      SequenceSums(c, memo, alts[i], 0, pos, [], fuel);
      if s.Stopped? {
        ChoiceConsumed(c, memo1, alts, i + 1, pos, fuel);
      }
    }
  }

  // ---------------------------------------------------------------------
  // Memoization

  /** A memo hit: an NT whose cell is filled returns the stored record, without
      evaluating anything and without needing fuel. */
  lemma MemoHit(c: Ctx, memo: Memo, name: string, pos: nat, fuel: nat)
    requires MemoOk(c, memo) && pos <= |c.input| && name in memo[pos]
    ensures Eval(c, memo, NT(name), pos, fuel) == (Success(memo[pos][name]), memo)
  {
  }

  /** A successful NT evaluation stores its result, action already applied, in
      `memos[pos][name]`; the record carries the body's consumed length and
      alternative, the rule's name, and the action's value (the body's value
      when the rule has no action). */
  lemma MemoStore(c: Ctx, memo: Memo, name: string, pos: nat, fuel: nat)
    requires MemoOk(c, memo) && pos <= |c.input| && name !in memo[pos] && fuel > 0
    ensures var (o, memo') := Eval(c, memo, NT(name), pos, fuel);
            var (raw, memo1) := EvalBody(c, memo, NT(name), pos, fuel - 1);
      o.Success? ==>
        && raw.Record?
        && memo' == memo1[pos := memo1[pos][name := o.m]]
        && memo'[pos][name] == o.m
        && o.m.kind == KNT && o.m.start == pos && o.m.name == Some(name)
        && o.m.consumed == raw.consumed && o.m.alternative == raw.alternative
        && (name !in c.actions ==> o.m.value == raw.value)
        && (name in c.actions ==>
              c.actions[name](Match(KNT, pos, raw.consumed, raw.value, raw.alternative, raw.times, Some(name)))
              == Ok(o.m.value))
  {
  }

  /** Only successes are stored: an NT evaluation that fails or throws leaves
      the memo table exactly as its body left it, with no write of its own. */
  lemma FailureNotStored(c: Ctx, memo: Memo, name: string, pos: nat, fuel: nat)
    requires MemoOk(c, memo) && pos <= |c.input| && name !in memo[pos] && fuel > 0
    ensures var (o, memo') := Eval(c, memo, NT(name), pos, fuel);
      !o.Success? ==> memo' == EvalBody(c, memo, NT(name), pos, fuel - 1).1
  {
  }

  /** A COMPOSITE result is neither memoized nor passed to an action: its
      record is the body's, and the memo table is the body's, even when an
      action table is present. */
  lemma CompositeNotMemoized(c: Ctx, memo: Memo, alts: seq<seq<Fragment>>, pos: nat, fuel: nat)
    requires MemoOk(c, memo) && pos <= |c.input| && fuel > 0
    ensures var (o, memo') := Eval(c, memo, Composite(alts), pos, fuel);
            var (raw, memo1) := EvalAlternatives(c, memo, alts, 0, pos, fuel - 1);
      && memo' == memo1
      && (o.Success? <==> raw.Record?)
      && (o.Success? ==> o.m == Match(KComposite, pos, raw.consumed, raw.value, raw.alternative, None, None))
  {
    var (raw, memo1) := EvalAlternatives(c, memo, alts, 0, pos, fuel - 1);
    OrderedChoice(c, memo, alts, 0, pos, fuel - 1);
  }

  /** A memo cell, once filled, keeps its record: every cell filled before a
      call of `match` holds the same record after it. The memo write of
      `match` only ever goes to a cell that was empty when the call began. */
  lemma {:induction false} EvalKeeps(c: Ctx, memo: Memo, f: Fragment, pos: nat, fuel: nat)
    requires MemoOk(c, memo) && pos <= |c.input|
    ensures Extends(memo, Eval(c, memo, f, pos, fuel).1)
    decreases fuel, 0
  {
    if !(f.NT? && f.name in memo[pos]) && fuel > 0 {
      var (raw, memo1) := EvalBody(c, memo, f, pos, fuel - 1);
      BodyKeeps(c, memo, f, pos, fuel - 1);
      if f.NT? && (raw.Length? || raw.Record?) {
        var r := Eval(c, memo, f, pos, fuel);
        if r.0.Success? {
          WriteKeeps(memo, memo1, pos, f.name, r.0.m);
        }
      }
    }
  }

  /** `_match` keeps every filled cell. */
  lemma {:induction false} BodyKeeps(c: Ctx, memo: Memo, f: Fragment, pos: nat, fuel: nat)
    requires MemoOk(c, memo) && pos <= |c.input|
    ensures Extends(memo, EvalBody(c, memo, f, pos, fuel).1)
    decreases fuel, 4
  {
    match f
    case Str(_) =>
    case Re(_) =>
    case Composite(alts) => AlternativesKeeps(c, memo, alts, 0, pos, fuel);
    case NT(name) =>
      if name in c.rules {
        AlternativesKeeps(c, memo, c.rules[name], 0, pos, fuel);
      }
    case Repetition(g, low, high) => RepetitionKeeps(c, memo, g, low, high, pos, 0, 0, [], fuel);
    case Lookahead(g) => EvalKeeps(c, memo, g, pos, fuel);
    case NegativeLookahead(g) => EvalKeeps(c, memo, g, pos, fuel);
  }

  lemma {:induction false} AlternativesKeeps(c: Ctx, memo: Memo, alts: seq<seq<Fragment>>, i: nat, pos: nat, fuel: nat)
    requires MemoOk(c, memo) && pos <= |c.input| && i <= |alts|
    ensures Extends(memo, EvalAlternatives(c, memo, alts, i, pos, fuel).1)
    decreases fuel, 3, |alts| - i
  {
    if i < |alts| {
      var (s, memo1) := EvalSequence(c, memo, alts[i], 0, pos, [], fuel);
      SequenceKeeps(c, memo, alts[i], 0, pos, [], fuel);
      if s.Stopped? {
        AlternativesKeeps(c, memo1, alts, i + 1, pos, fuel);
        ExtendsTransitive(memo, memo1, EvalAlternatives(c, memo1, alts, i + 1, pos, fuel).1);
      }
    }
  }

  lemma {:induction false} SequenceKeeps(c: Ctx, memo: Memo, frags: seq<Fragment>, j: nat, start: nat, subs: seq<Value>, fuel: nat)
    requires MemoOk(c, memo) && start <= |c.input| && j <= |frags|
    ensures Extends(memo, EvalSequence(c, memo, frags, j, start, subs, fuel).1)
    decreases fuel, 2, |frags| - j
  {
    if j < |frags| {
      var (o, memo1) := Eval(c, memo, frags[j], start, fuel);
      EvalKeeps(c, memo, frags[j], start, fuel);
      if o.Success? {
        var subs' := subs + [PostProcess(o.m)];
        SequenceKeeps(c, memo1, frags, j + 1, start + o.m.consumed, subs', fuel);
        ExtendsTransitive(memo, memo1, EvalSequence(c, memo1, frags, j + 1, start + o.m.consumed, subs', fuel).1);
      }
    }
  }

  lemma {:induction false} RepetitionKeeps(c: Ctx, memo: Memo, g: Fragment, low: nat, high: Bound,
                                           pos: nat, offset: nat, count: nat, subs: seq<Value>, fuel: nat)
    requires MemoOk(c, memo) && pos + offset <= |c.input|
    ensures Extends(memo, EvalRepetition(c, memo, g, low, high, pos, offset, count, subs, fuel).1)
    decreases fuel, 1
  {
    var o, memo1 := NextTurn(c, memo, g, high, pos, offset, count, fuel);
    RepetitionStep(c, memo, g, low, high, pos, offset, count, subs, fuel, o, memo1);
    if Within(count, high) && fuel > 0 {
      EvalKeeps(c, memo, g, pos + offset, fuel - 1);
    }
    if o.Success? {
      var subs' := subs + [VRecord(o.m)];
      RepetitionKeeps(c, memo1, g, low, high, pos, offset + o.m.consumed, count + 1, subs', fuel - 1);
      ExtendsTransitive(memo, memo1,
        EvalRepetition(c, memo1, g, low, high, pos, offset + o.m.consumed, count + 1, subs', fuel - 1).1);
    }
  }

  lemma ExtendsTransitive(a: Memo, b: Memo, d: Memo)
    requires Extends(a, b) && Extends(b, d)
    ensures Extends(a, d)
  {
    forall p | 0 <= p < |a|
      ensures Keeps(a[p], d[p])
    {
      assert Keeps(a[p], b[p]) && Keeps(b[p], d[p]);
    }
  }

  /** Writing a cell that was empty in `memo` keeps every cell `memo` had. */
  lemma WriteKeeps(memo: Memo, memo1: Memo, p: nat, n: string, m: Match)
    requires Extends(memo, memo1) && p < |memo| && n !in memo[p]
    ensures Extends(memo, memo1[p := memo1[p][n := m]])
  {
    var memo2 := memo1[p := memo1[p][n := m]];
    forall q | 0 <= q < |memo|
      ensures Keeps(memo[q], memo2[q])
    {
      assert Keeps(memo[q], memo1[q]);
    }
  }

  // ---------------------------------------------------------------------
  // Rules that are never called

  /** `f` contains no nonterminal `name`, looking `depth` levels down into
      composites, lookaheads and repetitions. */
  predicate AvoidsTo(f: Fragment, name: string, depth: nat)
    decreases depth
  {
    match f
    case NT(n) => n != name
    case Str(_) => true
    case Re(_) => true
    case Composite(alts) => depth > 0 && forall option | option in alts :: forall g | g in option :: AvoidsTo(g, name, depth - 1)
    case Lookahead(g) => depth > 0 && AvoidsTo(g, name, depth - 1)
    case NegativeLookahead(g) => depth > 0 && AvoidsTo(g, name, depth - 1)
    case Repetition(g, _, _) => depth > 0 && AvoidsTo(g, name, depth - 1)
  }

  /** No rule body contains the nonterminal `name`. */
  predicate RulesAvoid(rules: Rules, name: string, depth: nat) {
    forall n | n in rules :: OptionsAvoid(rules[n], name, depth)
  }

  /** Every fragment of the options avoids `name`. */
  predicate OptionsAvoid(alts: seq<seq<Fragment>>, name: string, depth: nat) {
    forall option | option in alts :: forall g | g in option :: AvoidsTo(g, name, depth)
  }

  /** No memo cell holds a record of rule `name`. */
  predicate Unwritten(memo: Memo, name: string) {
    forall p | 0 <= p < |memo| :: name !in memo[p]
  }

  /** A rule that no rule body and no fragment being matched mentions is
      never matched, so `match` never writes a memo cell for it. */
  lemma {:induction false} EvalAvoids(c: Ctx, memo: Memo, f: Fragment, pos: nat, fuel: nat, name: string, depth: nat, d: nat)
    requires MemoOk(c, memo) && pos <= |c.input|
    requires RulesAvoid(c.rules, name, depth) && AvoidsTo(f, name, d) && Unwritten(memo, name)
    ensures Unwritten(Eval(c, memo, f, pos, fuel).1, name)
    decreases fuel, 0
  {
    if !(f.NT? && f.name in memo[pos]) && fuel > 0 {
      BodyAvoids(c, memo, f, pos, fuel - 1, name, depth, d);
    }
  }

  /** `_match` of a fragment that avoids `name`, or of any rule's body, writes
      no cell for `name`. */
  lemma {:induction false} BodyAvoids(c: Ctx, memo: Memo, f: Fragment, pos: nat, fuel: nat, name: string, depth: nat, d: nat)
    requires MemoOk(c, memo) && pos <= |c.input|
    requires RulesAvoid(c.rules, name, depth) && (f.NT? || AvoidsTo(f, name, d)) && Unwritten(memo, name)
    ensures Unwritten(EvalBody(c, memo, f, pos, fuel).1, name)
    decreases fuel, 4
  {
    match f
    case Str(_) =>
    case Re(_) =>
    case Composite(alts) => AlternativesAvoid(c, memo, alts, 0, pos, fuel, name, depth, d - 1);
    case NT(n) =>
      if n in c.rules {
        AlternativesAvoid(c, memo, c.rules[n], 0, pos, fuel, name, depth, depth);
      }
    case Repetition(g, low, high) => RepetitionAvoids(c, memo, g, low, high, pos, 0, 0, [], fuel, name, depth, d - 1);
    case Lookahead(g) => EvalAvoids(c, memo, g, pos, fuel, name, depth, d - 1);
    case NegativeLookahead(g) => EvalAvoids(c, memo, g, pos, fuel, name, depth, d - 1);
  }

  lemma {:induction false} AlternativesAvoid(c: Ctx, memo: Memo, alts: seq<seq<Fragment>>, i: nat, pos: nat, fuel: nat,
                                             name: string, depth: nat, d: nat)
    requires MemoOk(c, memo) && pos <= |c.input| && i <= |alts|
    requires RulesAvoid(c.rules, name, depth) && OptionsAvoid(alts, name, d) && Unwritten(memo, name)
    ensures Unwritten(EvalAlternatives(c, memo, alts, i, pos, fuel).1, name)
    decreases fuel, 3, |alts| - i
  {
    if i < |alts| {
      var (s, memo1) := EvalSequence(c, memo, alts[i], 0, pos, [], fuel);
      assert alts[i] in alts;
      SequenceAvoids(c, memo, alts[i], 0, pos, [], fuel, name, depth, d);
      if s.Stopped? {
        AlternativesAvoid(c, memo1, alts, i + 1, pos, fuel, name, depth, d);
      }
    }
  }

  lemma {:induction false} SequenceAvoids(c: Ctx, memo: Memo, frags: seq<Fragment>, j: nat, start: nat, subs: seq<Value>,
                                          fuel: nat, name: string, depth: nat, d: nat)
    requires MemoOk(c, memo) && start <= |c.input| && j <= |frags|
    requires RulesAvoid(c.rules, name, depth) && (forall g | g in frags :: AvoidsTo(g, name, d))
    requires Unwritten(memo, name)
    ensures Unwritten(EvalSequence(c, memo, frags, j, start, subs, fuel).1, name)
    decreases fuel, 2, |frags| - j
  {
    if j < |frags| {
      var (o, memo1) := Eval(c, memo, frags[j], start, fuel);
      EvalAvoids(c, memo, frags[j], start, fuel, name, depth, d);
      if o.Success? {
        SequenceAvoids(c, memo1, frags, j + 1, start + o.m.consumed, subs + [PostProcess(o.m)], fuel, name, depth, d);
      }
    }
  }

  lemma {:induction false} RepetitionAvoids(c: Ctx, memo: Memo, g: Fragment, low: nat, high: Bound,
                                            pos: nat, offset: nat, count: nat, subs: seq<Value>, fuel: nat,
                                            name: string, depth: nat, d: nat)
    requires MemoOk(c, memo) && pos + offset <= |c.input|
    requires RulesAvoid(c.rules, name, depth) && AvoidsTo(g, name, d) && Unwritten(memo, name)
    ensures Unwritten(EvalRepetition(c, memo, g, low, high, pos, offset, count, subs, fuel).1, name)
    decreases fuel, 1
  {
    var o, memo1 := NextTurn(c, memo, g, high, pos, offset, count, fuel);
    RepetitionStep(c, memo, g, low, high, pos, offset, count, subs, fuel, o, memo1);
    if Within(count, high) && fuel > 0 {
      EvalAvoids(c, memo, g, pos + offset, fuel - 1, name, depth, d);
    }
    if o.Success? {
      RepetitionAvoids(c, memo1, g, low, high, pos, offset + o.m.consumed, count + 1, subs + [VRecord(o.m)], fuel - 1,
                       name, depth, d);
    }
  }

  /** A rule that no rule body mentions and that fails, or throws, leaves no
      memo cell for itself: only its own success could have written one. */
  lemma FailedRuleUnwritten(c: Ctx, memo: Memo, name: string, pos: nat, fuel: nat, depth: nat)
    requires MemoOk(c, memo) && pos <= |c.input|
    requires RulesAvoid(c.rules, name, depth) && Unwritten(memo, name)
    ensures var (o, memo') := Eval(c, memo, NT(name), pos, fuel);
      !o.Success? ==> Unwritten(memo', name)
  {
    if fuel > 0 {
      BodyAvoids(c, memo, NT(name), pos, fuel - 1, name, depth, 0);
    }
  }

  // ---------------------------------------------------------------------
  // Repetition

  /** The records the repetition loop has taken when it stops, from a state
      with `count` records `subs` taken and `offset` consumed. */
  ghost function Taken(c: Ctx, memo: Memo, g: Fragment, high: Bound,
                       pos: nat, offset: nat, count: nat, subs: seq<Value>, fuel: nat): seq<Value>
    requires MemoOk(c, memo) && pos + offset <= |c.input|
    decreases fuel
  {
    if !Within(count, high) || fuel == 0 then subs
    else
      var (o, memo1) := Eval(c, memo, g, pos + offset, fuel - 1);
      if o.Success? then Taken(c, memo1, g, high, pos, offset + o.m.consumed, count + 1, subs + [VRecord(o.m)], fuel - 1)
      else subs
  }

  /** One turn of the repetition loop: `o` is the inner match at the current
      offset, or `Fail` with the memo table unchanged when the guard or the
      fuel ends the loop first. */
  predicate Turn(c: Ctx, memo: Memo, g: Fragment, high: Bound, pos: nat, offset: nat, count: nat, fuel: nat,
                 o: Outcome, memo1: Memo)
    requires MemoOk(c, memo) && pos + offset <= |c.input|
  {
    if Within(count, high) && fuel > 0 then (o, memo1) == Eval(c, memo, g, pos + offset, fuel - 1)
    else o == Fail && memo1 == memo
  }

  /** The next turn of the loop from a given state. */
  lemma NextTurn(c: Ctx, memo: Memo, g: Fragment, high: Bound, pos: nat, offset: nat, count: nat, fuel: nat)
    returns (o: Outcome, memo1: Memo)
    requires MemoOk(c, memo) && pos + offset <= |c.input|
    ensures Turn(c, memo, g, high, pos, offset, count, fuel, o, memo1) && MemoOk(c, memo1)
    ensures o.Success? ==> && Within(count, high) && fuel > 0
                           && pos + offset + o.m.consumed <= |c.input| && o.m.kind == KindOf(g)
  {
    if Within(count, high) && fuel > 0 {
      var e := Eval(c, memo, g, pos + offset, fuel - 1);
      o, memo1 := e.0, e.1;
    } else {
      o, memo1 := Fail, memo;
    }
  }

  /** The turn as the loop sees it. */
  lemma RepetitionStep(c: Ctx, memo: Memo, g: Fragment, low: nat, high: Bound,
                       pos: nat, offset: nat, count: nat, subs: seq<Value>, fuel: nat, o: Outcome, memo1: Memo)
    requires MemoOk(c, memo) && pos + offset <= |c.input| && MemoOk(c, memo1)
    requires Turn(c, memo, g, high, pos, offset, count, fuel, o, memo1)
    requires o.Success? ==> pos + offset + o.m.consumed <= |c.input|
    ensures o.Success? ==>
      EvalRepetition(c, memo, g, low, high, pos, offset, count, subs, fuel)
      == EvalRepetition(c, memo1, g, low, high, pos, offset + o.m.consumed, count + 1, subs + [VRecord(o.m)], fuel - 1)
    ensures var r := EvalRepetition(c, memo, g, low, high, pos, offset, count, subs, fuel);
      !o.Success? ==> (r.0 == RepetitionResult(low, offset, count, subs) || r.0.Raised?) && r.1 == memo1
  {
  }

  /** The turn as `Taken` sees it. */
  lemma TakenStep(c: Ctx, memo: Memo, g: Fragment, high: Bound,
                  pos: nat, offset: nat, count: nat, subs: seq<Value>, fuel: nat, o: Outcome, memo1: Memo)
    requires MemoOk(c, memo) && pos + offset <= |c.input| && MemoOk(c, memo1)
    requires Turn(c, memo, g, high, pos, offset, count, fuel, o, memo1)
    requires o.Success? ==> pos + offset + o.m.consumed <= |c.input|
    ensures o.Success? ==>
      Taken(c, memo, g, high, pos, offset, count, subs, fuel)
      == Taken(c, memo1, g, high, pos, offset + o.m.consumed, count + 1, subs + [VRecord(o.m)], fuel - 1)
    ensures !o.Success? ==> Taken(c, memo, g, high, pos, offset, count, subs, fuel) == subs
  {
  }

  /** The repetition loop's verdict, from any state with `count` records
      taken: unless an error is thrown it succeeds iff the records it ends
      with number at least `low`; its value is those records and `times` their
      number. */
  lemma {:induction false} RepetitionVerdict(c: Ctx, memo: Memo, g: Fragment, low: nat, high: Bound,
                                             pos: nat, offset: nat, count: nat, subs: seq<Value>, fuel: nat)
    requires MemoOk(c, memo) && pos + offset <= |c.input| && |subs| == count
    ensures Verdict(c, memo, g, low, high, pos, offset, count, subs, fuel)
    decreases fuel
  {
    var o, memo1 := NextTurn(c, memo, g, high, pos, offset, count, fuel);
    RepetitionStep(c, memo, g, low, high, pos, offset, count, subs, fuel, o, memo1);
    TakenStep(c, memo, g, high, pos, offset, count, subs, fuel, o, memo1);
    if o.Success? {
      RepetitionVerdict(c, memo1, g, low, high, pos, offset + o.m.consumed, count + 1, subs + [VRecord(o.m)], fuel - 1);
    }
  }

  /** Unless the loop throws, it succeeds iff the records it ends with number
      at least `low`, and its value and `times` are those records and their
      number. */
  ghost predicate Verdict(c: Ctx, memo: Memo, g: Fragment, low: nat, high: Bound,
                          pos: nat, offset: nat, count: nat, subs: seq<Value>, fuel: nat)
    requires MemoOk(c, memo) && pos + offset <= |c.input|
  {
    var r := EvalRepetition(c, memo, g, low, high, pos, offset, count, subs, fuel).0;
    var t := Taken(c, memo, g, high, pos, offset, count, subs, fuel);
    && (!r.Raised? ==> (r.Record? <==> |t| >= low))
    && (r.Record? ==> r.value == VList(t) && r.times == Some(|t|))
  }

  /** The records the loop ends with extend the ones it started from. */
  lemma {:induction false} TakenPrefix(c: Ctx, memo: Memo, g: Fragment, high: Bound,
                                       pos: nat, offset: nat, count: nat, subs: seq<Value>, fuel: nat)
    requires MemoOk(c, memo) && pos + offset <= |c.input| && |subs| == count
    ensures var t := Taken(c, memo, g, high, pos, offset, count, subs, fuel);
      |t| >= count && t[..count] == subs
    decreases fuel
  {
    var o, memo1 := NextTurn(c, memo, g, high, pos, offset, count, fuel);
    TakenStep(c, memo, g, high, pos, offset, count, subs, fuel, o, memo1);
    if o.Success? {
      var subs' := subs + [VRecord(o.m)];
      TakenPrefix(c, memo1, g, high, pos, offset + o.m.consumed, count + 1, subs', fuel - 1);
      var t := Taken(c, memo1, g, high, pos, offset + o.m.consumed, count + 1, subs', fuel - 1);
      NextRecord(t, subs, VRecord(o.m));
    } else {
      assert subs[..count] == subs;
    }
  }

  /** The repetition loop consumes `offset` plus the total length of the
      records it adds. */
  lemma {:induction false} RepetitionConsumed(c: Ctx, memo: Memo, g: Fragment, low: nat, high: Bound,
                                              pos: nat, offset: nat, count: nat, subs: seq<Value>, fuel: nat)
    requires MemoOk(c, memo) && pos + offset <= |c.input| && |subs| == count
    ensures ConsumedSoFar(c, memo, g, low, high, pos, offset, count, subs, fuel)
    decreases fuel
  {
    var o, memo1 := NextTurn(c, memo, g, high, pos, offset, count, fuel);
    if o.Success? {
      RepetitionConsumed(c, memo1, g, low, high, pos, offset + o.m.consumed, count + 1, subs + [VRecord(o.m)], fuel - 1);
      ConsumedShift(c, memo, g, low, high, pos, offset, count, subs, fuel, o, memo1);
    } else {
      RepetitionStep(c, memo, g, low, high, pos, offset, count, subs, fuel, o, memo1);
      TakenStep(c, memo, g, high, pos, offset, count, subs, fuel, o, memo1);
      assert subs[count..] == [];
    }
  }

  /** A loop record's `consumed` is `offset` plus the total length of the
      records added from this state. */
  ghost predicate ConsumedSoFar(c: Ctx, memo: Memo, g: Fragment, low: nat, high: Bound,
                          pos: nat, offset: nat, count: nat, subs: seq<Value>, fuel: nat)
    requires MemoOk(c, memo) && pos + offset <= |c.input|
  {
    var r := EvalRepetition(c, memo, g, low, high, pos, offset, count, subs, fuel).0;
    var t := Taken(c, memo, g, high, pos, offset, count, subs, fuel);
    r.Record? ==> |t| >= count && r.consumed == offset + TotalConsumed(t[count..])
  }

  /** One successful turn carries `ConsumedSoFar` back from the next state. */
  lemma ConsumedShift(c: Ctx, memo: Memo, g: Fragment, low: nat, high: Bound,
                      pos: nat, offset: nat, count: nat, subs: seq<Value>, fuel: nat, o: Outcome, memo1: Memo)
    requires MemoOk(c, memo) && pos + offset <= |c.input| && |subs| == count && MemoOk(c, memo1)
    requires Turn(c, memo, g, high, pos, offset, count, fuel, o, memo1)
    requires o.Success? && fuel > 0 && pos + offset + o.m.consumed <= |c.input|
    requires ConsumedSoFar(c, memo1, g, low, high, pos, offset + o.m.consumed, count + 1, subs + [VRecord(o.m)], fuel - 1)
    ensures ConsumedSoFar(c, memo, g, low, high, pos, offset, count, subs, fuel)
  {
    var subs' := subs + [VRecord(o.m)];
    RepetitionStep(c, memo, g, low, high, pos, offset, count, subs, fuel, o, memo1);
    TakenStep(c, memo, g, high, pos, offset, count, subs, fuel, o, memo1);
    TakenPrefix(c, memo1, g, high, pos, offset + o.m.consumed, count + 1, subs', fuel - 1);
    var t := Taken(c, memo1, g, high, pos, offset + o.m.consumed, count + 1, subs', fuel - 1);
    NextRecord(t, subs, VRecord(o.m));
  }

  /** Each record the loop adds is a match of the inner fragment. */
  lemma {:induction false} TakenRecords(c: Ctx, memo: Memo, g: Fragment, high: Bound,
                                        pos: nat, offset: nat, count: nat, subs: seq<Value>, fuel: nat)
    requires MemoOk(c, memo) && pos + offset <= |c.input| && |subs| == count
    ensures AddedRecords(c, memo, g, high, pos, offset, count, subs, fuel)
    decreases fuel
  {
    var o, memo1 := NextTurn(c, memo, g, high, pos, offset, count, fuel);
    TakenStep(c, memo, g, high, pos, offset, count, subs, fuel, o, memo1);
    if o.Success? {
      var subs' := subs + [VRecord(o.m)];
      TakenRecords(c, memo1, g, high, pos, offset + o.m.consumed, count + 1, subs', fuel - 1);
      TakenPrefix(c, memo1, g, high, pos, offset + o.m.consumed, count + 1, subs', fuel - 1);
      var t := Taken(c, memo1, g, high, pos, offset + o.m.consumed, count + 1, subs', fuel - 1);
      NextRecord(t, subs, VRecord(o.m));
      NextRecordOf(t, count, KindOf(g));
    } else {
      assert subs[count..] == [];
    }
  }

  /** The records added from this state are matches of the inner fragment. */
  ghost predicate AddedRecords(c: Ctx, memo: Memo, g: Fragment, high: Bound,
                               pos: nat, offset: nat, count: nat, subs: seq<Value>, fuel: nat)
    requires MemoOk(c, memo) && pos + offset <= |c.input|
  {
    var t := Taken(c, memo, g, high, pos, offset, count, subs, fuel);
    |t| >= count && RecordsOf(t[count..], KindOf(g))
  }

  /** With a finite `high`, the loop ends with at most `high + 1` records:
      the guard `matches <= high` admits one more match than `high`. */
  lemma {:induction false} TakenBound(c: Ctx, memo: Memo, g: Fragment, high: Bound,
                                      pos: nat, offset: nat, count: nat, subs: seq<Value>, fuel: nat)
    requires MemoOk(c, memo) && pos + offset <= |c.input| && |subs| == count
    requires high.Finite? && count <= high.n + 1
    ensures |Taken(c, memo, g, high, pos, offset, count, subs, fuel)| <= high.n + 1
    decreases fuel
  {
    var o, memo1 := NextTurn(c, memo, g, high, pos, offset, count, fuel);
    TakenStep(c, memo, g, high, pos, offset, count, subs, fuel, o, memo1);
    if o.Success? {
      TakenBound(c, memo1, g, high, pos, offset + o.m.consumed, count + 1, subs + [VRecord(o.m)], fuel - 1);
    }
  }

  /** Every value is the record of a match of kind `k`. */
  predicate RecordsOf(vs: seq<Value>, k: Kind) {
    forall i | 0 <= i < |vs| :: vs[i].VRecord? && vs[i].m.kind == k
  }

  /** Sequence bookkeeping for one more record `x` after `subs`. */
  lemma NextRecord(t: seq<Value>, subs: seq<Value>, x: Value)
    requires |t| > |subs| && t[..|subs| + 1] == subs + [x]
    ensures t[..|subs|] == subs && t[|subs|] == x
    ensures TotalConsumed(t[|subs|..]) == ConsumedOf(x) + TotalConsumed(t[|subs| + 1..])
  {
    assert t[..|subs|] == t[..|subs| + 1][..|subs|];
    assert t[|subs|] == t[..|subs| + 1][|subs|];
    assert t[|subs|..][1..] == t[|subs| + 1..];
  }

  lemma NextRecordOf(t: seq<Value>, i: nat, k: Kind)
    requires i < |t| && t[i].VRecord? && t[i].m.kind == k && RecordsOf(t[i + 1..], k)
    ensures RecordsOf(t[i..], k)
  {
    assert forall j | 1 <= j < |t| - i :: t[i..][j] == t[i + 1..][j - 1];
  }

  /** A REPETITION match is the record of its loop with `type` and `start`. */
  lemma RepetitionEval(c: Ctx, memo: Memo, g: Fragment, low: nat, high: Bound, pos: nat, fuel: nat)
    requires MemoOk(c, memo) && pos <= |c.input| && fuel > 0
    ensures var o := Eval(c, memo, Repetition(g, low, high), pos, fuel).0;
            var r := EvalRepetition(c, memo, g, low, high, pos, 0, 0, [], fuel - 1).0;
      && (o.Success? <==> r.Record?)
      && (o.Abort? <==> r.Raised?)
      && (o.Success? ==> o.m == Match(KRepetition, pos, r.consumed, r.value, r.alternative, r.times, r.name))
  {
  }

  /** REPETITION: the inner fragment is matched greedily at successive
      offsets until it fails or the guard `matches <= high` stops the loop.
      Unless an error is thrown, the match succeeds iff the records taken
      number at least `low`; its value is those records, each a match of the
      inner fragment, `times` is their number, at most `high + 1`, and
      `consumed` is their total length. */
  lemma RepetitionMatch(c: Ctx, memo: Memo, g: Fragment, low: nat, high: Bound, pos: nat, fuel: nat)
    requires MemoOk(c, memo) && pos <= |c.input| && fuel > 0
    ensures var o := Eval(c, memo, Repetition(g, low, high), pos, fuel).0;
            var t := Taken(c, memo, g, high, pos, 0, 0, [], fuel - 1);
      && (!o.Abort? ==> (o.Success? <==> |t| >= low))
      && (o.Success? ==>
            && o.m.kind == KRepetition && o.m.value == VList(t) && o.m.times == Some(|t|)
            && (high.Finite? ==> |t| <= high.n + 1)
            && o.m.consumed == TotalConsumed(t)
            && RecordsOf(t, KindOf(g)))
  {
    RepetitionEval(c, memo, g, low, high, pos, fuel);
    RepetitionVerdict(c, memo, g, low, high, pos, 0, 0, [], fuel - 1);
    RepetitionConsumed(c, memo, g, low, high, pos, 0, 0, [], fuel - 1);
    TakenRecords(c, memo, g, high, pos, 0, 0, [], fuel - 1);
    if high.Finite? {
      TakenBound(c, memo, g, high, pos, 0, 0, [], fuel - 1);
    }
    var t := Taken(c, memo, g, high, pos, 0, 0, [], fuel - 1);
    assert t[0..] == t;
  }

  /** `'x'?` (bounds 0 and 1) on the input "xx" takes both characters: the
      loop guard `matches <= high` admits a second match. */
  lemma OptionalTakesTwo(c: Ctx)
    requires c.input == "xx"
    ensures var o := Eval(c, EmptyMemo(3), Repetition(Str("x"), 0, Finite(1)), 0, 4).0;
      o.Success? && o.m.consumed == 2 && o.m.times == Some(2)
  {
    var memo := EmptyMemo(3);
    var x := Str("x");
    assert MemoOk(c, memo);
    assert c.input[0..] == "xx" && c.input[1..] == "x";
    StringFragment(c, memo, "x", 0, 2);
    StringFragment(c, memo, "x", 1, 1);
    var o1, memo1 := NextTurn(c, memo, x, Finite(1), 0, 0, 0, 3);
    RepetitionStep(c, memo, x, 0, Finite(1), 0, 0, 0, [], 3, o1, memo1);
    assert o1.Success? && o1.m.consumed == 1 && memo1 == memo;
    var o2, memo2 := NextTurn(c, memo1, x, Finite(1), 0, 1, 1, 2);
    RepetitionStep(c, memo1, x, 0, Finite(1), 0, 1, 1, [VRecord(o1.m)], 2, o2, memo2);
    assert o2.Success? && o2.m.consumed == 1 && memo2 == memo;
    var subs := [VRecord(o1.m), VRecord(o2.m)];
    assert EvalRepetition(c, memo2, x, 0, Finite(1), 0, 2, 2, subs, 1).0 == RepetitionResult(0, 2, 2, subs);
  }

  // ---------------------------------------------------------------------
  // Lookaheads

  /** LOOKAHEAD succeeds, consuming nothing and with value `[]`, iff its inner
      fragment matches at the same position; the inner match's memo writes stay. */
  lemma LookaheadZeroWidth(c: Ctx, memo: Memo, g: Fragment, pos: nat, fuel: nat)
    requires MemoOk(c, memo) && pos <= |c.input| && fuel > 0
    ensures var (o, memo') := Eval(c, memo, Lookahead(g), pos, fuel);
            var (i, memoI) := Eval(c, memo, g, pos, fuel - 1);
      && memo' == memoI
      && (o.Success? <==> i.Success?)
      && (o.Fail? <==> i.Fail?)
      && (o.Success? ==> o.m.consumed == 0 && o.m.value == VList([]) && o.m.kind == KLookahead)
  {
  }

  /** NEGATIVE_LOOKAHEAD succeeds, consuming nothing and with value `[]`, iff
      its inner fragment fails at the same position. */
  lemma NegativeLookaheadZeroWidth(c: Ctx, memo: Memo, g: Fragment, pos: nat, fuel: nat)
    requires MemoOk(c, memo) && pos <= |c.input| && fuel > 0
    ensures var (o, memo') := Eval(c, memo, NegativeLookahead(g), pos, fuel);
            var (i, memoI) := Eval(c, memo, g, pos, fuel - 1);
      && memo' == memoI
      && (o.Success? <==> i.Fail?)
      && (o.Fail? <==> i.Success?)
      && (o.Success? ==> o.m.consumed == 0 && o.m.value == VList([]) && o.m.kind == KNegativeLookahead)
  {
  }
}
