/** The grammar-fragment data model of parser.js: the seven fragment kinds,
    the static constructors of `Fragment`, and rule tables. */
module Fragments {
  import opened Wrappers

  /** `FRAGMENT_TYPE`: the `type` tag a match record carries. */
  datatype Kind = KNT | KString | KRe | KComposite | KLookahead | KNegativeLookahead | KRepetition

  /** The upper limit of a repetition; `Unbounded` stands for JavaScript's `Infinity`. */
  datatype Bound = Finite(n: nat) | Unbounded

  /** One grammar fragment. An `Re` keeps its pattern source text, with the
      leading `^` that `F.re` adds. */
  datatype Fragment =
    | NT(name: string)
    | Str(text: string)
    | Re(source: string)
    | Composite(alternatives: seq<seq<Fragment>>)
    | Lookahead(inner: Fragment)
    | NegativeLookahead(inner: Fragment)
    | Repetition(fragment: Fragment, low: nat, high: Bound)

  /** A rule table: rule name to its ordered alternatives; an alternative may be empty. */
  type Rules = map<string, seq<seq<Fragment>>>

  function KindOf(f: Fragment): Kind {
    match f
    case NT(_) => KNT
    case Str(_) => KString
    case Re(_) => KRe
    case Composite(_) => KComposite
    case Lookahead(_) => KLookahead
    case NegativeLookahead(_) => KNegativeLookahead
    case Repetition(_, _, _) => KRepetition
  }

  /** The fragment's `value` payload when it is a string (a rule name, a literal
      or a pattern source); `None` for the kinds whose payload is not a string. */
  function PayloadText(f: Fragment): Option<string> {
    match f
    case NT(n) => Some(n)
    case Str(t) => Some(t)
    case Re(s) => Some(s)
    case _ => None
  }

  /** Whether `count` repetitions still satisfy the loop guard `matches <= high`. */
  predicate Within(count: nat, high: Bound) {
    high.Unbounded? || count <= high.n
  }

  // The static constructors F.nt, F.str, F.composite, F.la and F.nla are the
  // datatype constructors above; F.rep supplies default bounds and F.re
  // transforms its argument.

  /** `F.rep(fragment, low = 0, high = Infinity)`. */
  function Rep(fragment: Fragment, low: nat := 0, high: Bound := Unbounded): Fragment {
    Repetition(fragment, low, high)
  }

  /** `F.re` anchors the pattern at the current position by prefixing `^`. */
  function MakeRe(pattern: string): (f: Fragment)
    ensures f.Re? && |f.source| == |pattern| + 1
    ensures f.source[0] == '^' && f.source[1..] == pattern
  {
    Re("^" + pattern)
  }
}
