/** `Fragment.match` and `Fragment._match` of parser.js as methods over the
    memo table `memos`, an array with one dictionary per input position that
    the methods update in place. Each method is proved to compute exactly the
    outcome and the new memo table that `Semantics` gives for the old one. */
module Matcher {
  import opened Wrappers
  import opened Fragments
  import opened Values
  import opened Semantics

  /** `match(input, pos, rules, memos, actions)`. */
  method MatchFragment(c: Ctx, memos: array<map<string, Match>>, f: Fragment, pos: nat, fuel: nat)
    returns (o: Outcome)
    requires MemoOk(c, memos[..]) && pos <= |c.input|
    modifies memos
    ensures (o, memos[..]) == Eval(c, old(memos[..]), f, pos, fuel)
    decreases fuel, 0
  {
    if f.NT? && f.name in memos[pos] {
      return Success(memos[pos][f.name]);
    }
    if fuel == 0 {
      return Abort(OutOfFuel);
    }
    var raw := MatchBody(c, memos, f, pos, fuel - 1);
    var result: Match;
    match raw {
      case NoMatch =>
        return Fail;
      case Raised(e) =>
        return Abort(e);
      case Length(n) =>
        result := Match(KindOf(f), pos, n, VText(c.input[pos..pos + n]), None, None, None);
      case Record(n, v, alt, times, name) =>
        result := Match(KindOf(f), pos, n, v, alt, times, name);
    }
    if f.NT? {
      result := result.(name := Some(f.name));
      if f.name in c.actions {
        var applied := c.actions[f.name](result);
        if applied.Err? {
          return Abort(ActionFailed(f.name, applied.error));
        }
        result := result.(value := applied.value);
      }
      memos[pos] := memos[pos][f.name := result];
    }
    return Success(result);
  }

  /** `_match(input, pos, rules, memos, actions)`. */
  method MatchBody(c: Ctx, memos: array<map<string, Match>>, f: Fragment, pos: nat, fuel: nat)
    returns (r: Raw)
    requires MemoOk(c, memos[..]) && pos <= |c.input|
    modifies memos
    ensures (r, memos[..]) == EvalBody(c, old(memos[..]), f, pos, fuel)
    decreases fuel, 4
  {
    var rest := c.input[pos..];
    match f {
      case Str(t) =>
        r := if t <= rest then Length(|t|) else NoMatch;
      case Re(source) =>
        var matching := Regex.PrefixMatch(c.regex, source, rest);
        r := if matching.Some? then Length(matching.value) else NoMatch;
      case Composite(alts) =>
        r := MatchAlternatives(c, memos, alts, pos, fuel);
      case NT(name) =>
        if name !in c.rules {
          return Raised(MissingRule(name));
        }
        r := MatchAlternatives(c, memos, c.rules[name], pos, fuel);
      case Repetition(g, low, high) =>
        r := MatchRepetition(c, memos, g, low, high, pos, fuel);
      case Lookahead(g) =>
        var m := MatchFragment(c, memos, g, pos, fuel);
        r := match m
          case Success(inner) => Record(0, VList([]), inner.alternative, inner.times, inner.name)
          case Fail => NoMatch
          case Abort(e) => Raised(e);
      case NegativeLookahead(g) =>
        var m := MatchFragment(c, memos, g, pos, fuel);
        r := match m
          case Success(_) => NoMatch
          case Fail => Record(0, VList([]), None, None, PayloadText(g))
          case Abort(e) => Raised(e);
    }
  }

  /** The NT/COMPOSITE case of `_match`: the loop over the options; the
      first option whose fragments all match gives the record. */
  method MatchAlternatives(c: Ctx, memos: array<map<string, Match>>, options: seq<seq<Fragment>>, pos: nat, fuel: nat)
    returns (r: Raw)
    requires MemoOk(c, memos[..]) && pos <= |c.input|
    modifies memos
    ensures (r, memos[..]) == EvalAlternatives(c, old(memos[..]), options, 0, pos, fuel)
    decreases fuel, 3
  {
    var i := 0;
    while i < |options|
      invariant 0 <= i <= |options|
      invariant MemoOk(c, memos[..])
      invariant EvalAlternatives(c, old(memos[..]), options, 0, pos, fuel)
                == EvalAlternatives(c, memos[..], options, i, pos, fuel)
      decreases |options| - i
    {
      var s := MatchSequence(c, memos, options[i], pos, fuel);
      match s {
        case Done(start, submatches) =>
          return Record(start - pos, VList(submatches), Some(i), None, None);
        case Halted(e) =>
          return Raised(e);
        case Stopped =>
      }
      i := i + 1;
    }
    return NoMatch;
  }

  /** The inner loop of the NT/COMPOSITE case: the fragments of one option
      matched in order, the cursor `start` moving by each one's consumed
      length; the first failure ends the option. */
  method MatchSequence(c: Ctx, memos: array<map<string, Match>>, option: seq<Fragment>, pos: nat, fuel: nat)
    returns (s: SeqOutcome)
    requires MemoOk(c, memos[..]) && pos <= |c.input|
    modifies memos
    ensures (s, memos[..]) == EvalSequence(c, old(memos[..]), option, 0, pos, [], fuel)
    decreases fuel, 2
  {
    var submatches: seq<Value> := [];
    var start := pos;
    var j := 0;
    while j < |option|
      invariant 0 <= j <= |option| && pos <= start <= |c.input|
      invariant MemoOk(c, memos[..])
      invariant EvalSequence(c, old(memos[..]), option, 0, pos, [], fuel)
                == EvalSequence(c, memos[..], option, j, start, submatches, fuel)
      decreases |option| - j
    {
      var m := MatchFragment(c, memos, option[j], start, fuel);
      if m.Fail? {
        return Stopped;
      }
      if m.Abort? {
        return Halted(m.error);
      }
      submatches := submatches + [PostProcess(m.m)];
      start := start + m.m.consumed;
      j := j + 1;
    }
    return Done(start, submatches);
  }

  /** The REPETITION case of `_match`: `while (matches <= high)`, one unit of
      fuel per iteration. */
  method MatchRepetition(c: Ctx, memos: array<map<string, Match>>, g: Fragment, low: nat, high: Bound,
                         pos: nat, fuel: nat)
    returns (r: Raw)
    requires MemoOk(c, memos[..]) && pos <= |c.input|
    modifies memos
    ensures (r, memos[..]) == EvalRepetition(c, old(memos[..]), g, low, high, pos, 0, 0, [], fuel)
    decreases fuel, 1
  {
    var matches: nat := 0;
    var submatches: seq<Value> := [];
    var offset: nat := 0;
    var budget: nat := fuel;
    while Within(matches, high)
      invariant budget <= fuel && pos + offset <= |c.input|
      invariant MemoOk(c, memos[..])
      invariant EvalRepetition(c, old(memos[..]), g, low, high, pos, 0, 0, [], fuel)
                == EvalRepetition(c, memos[..], g, low, high, pos, offset, matches, submatches, budget)
      decreases budget
    {
      if budget == 0 {
        return Raised(OutOfFuel);
      }
      ghost var now := memos[..];
      var m := MatchFragment(c, memos, g, pos + offset, budget - 1);
      if m.Fail? {
        assert EvalRepetition(c, now, g, low, high, pos, offset, matches, submatches, budget)
               == (RepetitionResult(low, offset, matches, submatches), memos[..]);
        break;
      }
      if m.Abort? {
        return Raised(m.error);
      }
      matches := matches + 1;
      offset := offset + m.m.consumed;
      submatches := submatches + [VRecord(m.m)];
      budget := budget - 1;
    }
    return RepetitionResult(low, offset, matches, submatches);
  }
}
