/** The packrat matcher of parser.js (`Fragment.match` and `_match`) as pure
    functions that thread the memo table from call to call. `Eval` is one call
    of `match`, `EvalBody` one call of `_match`; the loops of `_match` over
    alternatives, over the fragments of one alternative and over repetitions
    are `EvalAlternatives`, `EvalSequence` and `EvalRepetition`.

    Every call carries `fuel`: a call of `match` that misses the memo table
    and an iteration of the repetition loop each use one unit. Running out is the outcome
    `Abort(OutOfFuel)`, which stands for the source's unbounded recursion or
    loop. Exceptions the source throws are `Abort` outcomes too; like a thrown
    error they pass through every enclosing match unchanged, and the memo
    writes made before them stay. */
module Semantics {
  import opened Wrappers
  import opened Fragments
  import opened Regex
  import opened Values

  /** `memos[pos][name]`: one dictionary of rule results per input position. */
  type Memo = seq<map<string, Match>>

  /** A per-rule action: receives the completed match record; `Err` is a throw. */
  type Action = Match -> Result<Value>

  /** What one parse holds fixed: the input, the rule table, the action table
      and the engine answering non-class patterns. */
  datatype Ctx = Ctx(input: string, rules: Rules, actions: map<string, Action>, regex: Engine)

  datatype Error =
    | OutOfFuel
    | MissingRule(rule: string)
    | ActionFailed(action: string, message: string)
    | BadGrammar

  /** The result of `match`: `null`, a match record, or a thrown error. */
  datatype Outcome = Fail | Success(m: Match) | Abort(error: Error)

  /** The result of `_match`: `null`, a consumed length (STRING and RE), a
      record without `type` and `start`, or a thrown error. */
  datatype Raw =
    | NoMatch
    | Length(n: nat)
    | Record(consumed: nat, value: Value, alternative: Option<nat>, times: Option<nat>, name: Option<string>)
    | Raised(error: Error)

  /** The result of matching the fragments of one alternative in order. */
  datatype SeqOutcome = Done(end: nat, subs: seq<Value>) | Stopped | Halted(error: Error)

  /** A memo cell holds a completed NT record for its own name and position. */
  predicate CellOk(input: string, m: Match, p: nat, n: string) {
    m.kind == KNT && m.name == Some(n) && Fits(input, m, p)
  }

  predicate MemoOk(c: Ctx, memo: Memo) {
    && |memo| == |c.input| + 1
    && forall p | 0 <= p < |memo| :: CellsOk(c.input, memo[p], p)
  }

  /** Every cell of the dictionary at position `p` is right for its name. */
  predicate CellsOk(input: string, cells: map<string, Match>, p: nat) {
    forall n | n in cells :: CellOk(input, cells[n], p, n)
  }

  lemma MemoWrite(c: Ctx, memo: Memo, p: nat, n: string, m: Match)
    requires MemoOk(c, memo) && p < |memo| && CellOk(c.input, m, p, n)
    ensures MemoOk(c, memo[p := memo[p][n := m]])
  {
    var memo' := memo[p := memo[p][n := m]];
    forall q | 0 <= q < |memo'|
      ensures CellsOk(c.input, memo'[q], q)
    {
      if q == p {
        assert CellsOk(c.input, memo[p], p);
      } else {
        assert memo'[q] == memo[q];
      }
    }
  }

  /** `memo'` keeps every cell `memo` has, with the same record. */
  predicate Extends(memo: Memo, memo': Memo) {
    && |memo'| == |memo|
    && forall p | 0 <= p < |memo| :: Keeps(memo[p], memo'[p])
  }

  /** `cells'` has every entry of `cells`, unchanged. */
  predicate Keeps(cells: map<string, Match>, cells': map<string, Match>) {
    forall n | n in cells :: n in cells' && cells'[n] == cells[n]
  }

  function EmptyMemo(size: nat): (memo: Memo)
    ensures |memo| == size && forall p | 0 <= p < size :: memo[p] == map[]
  {
    seq(size, _ => map[])
  }

  /** `match`: a memo hit returns the stored record; otherwise `_match` runs,
      its answer gets `type` and `start`, and for an NT also `name`, the
      rule's action, and the memo write. A failure returns before any of it. */
  function Eval(c: Ctx, memo: Memo, f: Fragment, pos: nat, fuel: nat): (r: (Outcome, Memo))
    requires MemoOk(c, memo) && pos <= |c.input|
    ensures MemoOk(c, r.1)
    ensures r.0.Success? ==> Fits(c.input, r.0.m, pos) && r.0.m.kind == KindOf(f)
    decreases fuel, 0
  {
    if f.NT? && f.name in memo[pos] then
      assert CellsOk(c.input, memo[pos], pos);
      (Success(memo[pos][f.name]), memo)
    else if fuel == 0 then (Abort(OutOfFuel), memo)
    else
      var (raw, memo1) := EvalBody(c, memo, f, pos, fuel - 1);
      match raw
      case NoMatch => (Fail, memo1)
      case Raised(e) => (Abort(e), memo1)
      case Length(n) =>
        Complete(c, memo1, f, pos, Match(KindOf(f), pos, n, VText(c.input[pos..pos + n]), None, None, None))
      case Record(n, v, alt, times, name) =>
        Complete(c, memo1, f, pos, Match(KindOf(f), pos, n, v, alt, times, name))
  }

  /** The applied action: the record with its `value` replaced, or the throw. */
  function Act(c: Ctx, name: string, m: Match): (r: Result<Match>)
    ensures r.Ok? ==> r.value == m.(value := r.value.value)
  {
    if name in c.actions then
      match c.actions[name](m)
      case Ok(v) => Ok(m.(value := v))
      case Err(e) => Err(e)
    else Ok(m)
  }

  /** The tail of `match` after a success of `_match`. */
  function Complete(c: Ctx, memo: Memo, f: Fragment, pos: nat, m: Match): (r: (Outcome, Memo))
    requires MemoOk(c, memo) && pos <= |c.input| && Fits(c.input, m, pos) && m.kind == KindOf(f)
    ensures MemoOk(c, r.1)
    ensures r.0.Success? ==> Fits(c.input, r.0.m, pos) && r.0.m.kind == KindOf(f)
    ensures !f.NT? ==> r == (Success(m), memo)
    ensures f.NT? && r.0.Success? ==> r.1 == memo[pos := memo[pos][f.name := r.0.m]]
    ensures f.NT? && !r.0.Success? ==> r.1 == memo
    ensures !r.0.Fail?
  {
    if !f.NT? then (Success(m), memo)
    else
      match Act(c, f.name, m.(name := Some(f.name)))
      case Ok(m') =>
        MemoWrite(c, memo, pos, f.name, m');
        (Success(m'), memo[pos := memo[pos][f.name := m']])
      case Err(e) => (Abort(ActionFailed(f.name, e)), memo)
  }

  /** `_match`, one case per fragment kind. */
  function EvalBody(c: Ctx, memo: Memo, f: Fragment, pos: nat, fuel: nat): (r: (Raw, Memo))
    requires MemoOk(c, memo) && pos <= |c.input|
    ensures MemoOk(c, r.1)
    ensures r.0.Length? ==> (f.Str? || f.Re?) && pos + r.0.n <= |c.input|
    ensures r.0.Record? ==> pos + r.0.consumed <= |c.input| && !f.Str? && !f.Re?
    ensures r.0.Record? && (f.Lookahead? || f.NegativeLookahead?) ==> r.0.consumed == 0
    decreases fuel, 4
  {
    match f
    case Str(t) =>
      (if t <= c.input[pos..] then Length(|t|) else NoMatch, memo)
    case Re(source) =>
      (match PrefixMatch(c.regex, source, c.input[pos..])
       case Some(n) => Length(n)
       case None => NoMatch, memo)
    case Composite(alts) =>
      EvalAlternatives(c, memo, alts, 0, pos, fuel)
    case NT(name) =>
      if name in c.rules then EvalAlternatives(c, memo, c.rules[name], 0, pos, fuel)
      else (Raised(MissingRule(name)), memo)
    case Repetition(g, low, high) =>
      EvalRepetition(c, memo, g, low, high, pos, 0, 0, [], fuel)
    case Lookahead(g) =>
      var (o, memo1) := Eval(c, memo, g, pos, fuel);
      (match o
       case Success(m) => Record(0, VList([]), m.alternative, m.times, m.name)
       case Fail => NoMatch
       case Abort(e) => Raised(e), memo1)
    case NegativeLookahead(g) =>
      var (o, memo1) := Eval(c, memo, g, pos, fuel);
      (match o
       case Success(_) => NoMatch
       case Fail => Record(0, VList([]), None, None, PayloadText(g))
       case Abort(e) => Raised(e), memo1)
  }

  /** The loop over the alternatives from index `i` on: the first one whose
      fragments all match gives the record; a failed one passes on the memo
      writes it made. */
  function EvalAlternatives(c: Ctx, memo: Memo, alts: seq<seq<Fragment>>, i: nat, pos: nat, fuel: nat): (r: (Raw, Memo))
    requires MemoOk(c, memo) && pos <= |c.input| && i <= |alts|
    ensures MemoOk(c, r.1)
    ensures r.0.Record? ==> pos + r.0.consumed <= |c.input|
    ensures !r.0.Length?
    decreases fuel, 3, |alts| - i
  {
    if i == |alts| then (NoMatch, memo)
    else
      var (s, memo1) := EvalSequence(c, memo, alts[i], 0, pos, [], fuel);
      match s
      case Done(end, subs) => (Record(end - pos, VList(subs), Some(i), None, None), memo1)
      case Stopped => EvalAlternatives(c, memo1, alts, i + 1, pos, fuel)
      case Halted(e) => (Raised(e), memo1)
  }

  /** The loop over the fragments of one alternative from index `j` on, with
      the cursor at `start` and the post-processed sub-values so far in `subs`. */
  function EvalSequence(c: Ctx, memo: Memo, frags: seq<Fragment>, j: nat, start: nat, subs: seq<Value>, fuel: nat)
    : (r: (SeqOutcome, Memo))
    requires MemoOk(c, memo) && start <= |c.input| && j <= |frags|
    ensures MemoOk(c, r.1)
    ensures r.0.Done? ==> start <= r.0.end <= |c.input|
    decreases fuel, 2, |frags| - j
  {
    if j == |frags| then (Done(start, subs), memo)
    else
      var (o, memo1) := Eval(c, memo, frags[j], start, fuel);
      match o
      case Fail => (Stopped, memo1)
      case Abort(e) => (Halted(e), memo1)
      case Success(m) => EvalSequence(c, memo1, frags, j + 1, start + m.consumed, subs + [PostProcess(m)], fuel)
  }

  /** What the repetition loop returns once it stops after `count` matches. */
  function RepetitionResult(low: nat, offset: nat, count: nat, subs: seq<Value>): Raw {
    if count >= low then Record(offset, VList(subs), None, Some(count), None) else NoMatch
  }

  /** The repetition loop `while (matches <= high)`, with `offset` consumed so
      far, `count` matches and their whole records in `subs`. */
  function EvalRepetition(c: Ctx, memo: Memo, g: Fragment, low: nat, high: Bound,
                          pos: nat, offset: nat, count: nat, subs: seq<Value>, fuel: nat): (r: (Raw, Memo))
    requires MemoOk(c, memo) && pos + offset <= |c.input|
    ensures MemoOk(c, r.1)
    ensures r.0.Record? ==> pos + r.0.consumed <= |c.input|
    ensures !r.0.Length?
    decreases fuel, 1
  {
    if !Within(count, high) then (RepetitionResult(low, offset, count, subs), memo)
    else if fuel == 0 then (Raised(OutOfFuel), memo)
    else
      var (o, memo1) := Eval(c, memo, g, pos + offset, fuel - 1);
      match o
      case Fail => (RepetitionResult(low, offset, count, subs), memo1)
      case Abort(e) => (Raised(e), memo1)
      case Success(m) =>
        EvalRepetition(c, memo1, g, low, high, pos, offset + m.consumed, count + 1, subs + [VRecord(m)], fuel - 1)
  }
}
