/**
 * `Punctuated::parse_terminated` over an element parser: elements separated
 * by commas up to the end of the input, with an optional trailing comma.
 * Both the parameter list inside the parentheses and the sequence of
 * declarations are read this way.
 */
module Punctuated {
  import opened Tokens

  /** An element parser that is defined at every cursor and, when it succeeds, consumes at least one token. */
  ghost predicate Advances<T>(elem: (seq<Token>, nat) --> Result<(T, nat)>) {
    forall toks: seq<Token>, pos: nat ::
      pos <= |toks| ==> elem.requires(toks, pos)
                        && (elem(toks, pos).Ok? ==> pos < elem(toks, pos).value.1 <= |toks|)
  }

  /**
   * The elements read so far are in `acc`. The list ends at the end of the
   * input, before an element or after one; after an element that does not
   * reach the end, a comma is required.
   */
  function ParseTerminated<T>(elem: (seq<Token>, nat) --> Result<(T, nat)>, toks: seq<Token>, pos: nat,
                              acc: seq<T>): Result<seq<T>>
    requires Advances(elem) && pos <= |toks|
    decreases |toks| - pos
  {
    if pos == |toks| then Ok(acc)
    else
      match elem(toks, pos)
      case Err(e) => Err(e)
      case Ok((x, next)) =>
        if next == |toks| then Ok(acc + [x])
        else if toks[next] == Punct(',') then ParseTerminated(elem, toks, next + 1, acc + [x])
        else Err(Expected(Comma, next))
  }

  /** The elements, each printed by `render`, separated by commas. */
  function Joined<T>(render: T -> seq<Token>, xs: seq<T>): seq<Token> {
    if xs == [] then []
    else if |xs| == 1 then render(xs[0])
    else render(xs[0]) + [Punct(',')] + Joined(render, xs[1..])
  }

  /** `elem` reads `x` back from its printed form at `p`, when that stands before a comma or the end of `toks`. */
  ghost predicate ReadsAt<T>(elem: (seq<Token>, nat) --> Result<(T, nat)>, render: T -> seq<Token>,
                             toks: seq<Token>, x: T, p: nat)
    requires Advances(elem)
  {
    var n := |render(x)|;
    p + n <= |toks| && (forall k :: 0 <= k < n ==> toks[p + k] == render(x)[k])
    && (p + n == |toks| || toks[p + n] == Punct(','))
    ==> elem(toks, p) == Ok((x, p + n))
  }

  /** `elem` reads each of `xs` back from its printed form, wherever that stands in `toks`. */
  ghost predicate ReadsBack<T>(elem: (seq<Token>, nat) --> Result<(T, nat)>, render: T -> seq<Token>,
                               toks: seq<Token>, xs: seq<T>)
  {
    Advances(elem) && forall i: int, p: nat :: 0 <= i < |xs| ==> ReadsAt(elem, render, toks, xs[i], p)
  }

  lemma ReadsBackTail<T>(elem: (seq<Token>, nat) --> Result<(T, nat)>, render: T -> seq<Token>,
                         toks: seq<Token>, xs: seq<T>)
    requires xs != [] && ReadsBack(elem, render, toks, xs)
    ensures ReadsBack(elem, render, toks, xs[1..])
  {
    forall i: int, p: nat | 0 <= i < |xs[1..]|
      ensures ReadsAt(elem, render, toks, xs[1..][i], p)
    {
      assert xs[1..][i] == xs[i + 1];
    }
  }

  /** Where the first printed element ends, and what follows it. */
  lemma JoinedHead<T>(render: T -> seq<Token>, toks: seq<Token>, pos: nat, xs: seq<T>)
    requires xs != [] && pos <= |toks| && toks[pos..] == Joined(render, xs)
    ensures pos + |render(xs[0])| <= |toks| && toks[pos..pos + |render(xs[0])|] == render(xs[0])
    ensures |xs| == 1 ==> pos + |render(xs[0])| == |toks|
    ensures |xs| > 1 ==> pos + |render(xs[0])| < |toks|
                         && toks[pos + |render(xs[0])|] == Punct(',')
                         && toks[pos + |render(xs[0])| + 1..] == Joined(render, xs[1..])
  {
    var n := |render(xs[0])|;
    var s := toks[pos..];
    assert toks[pos..pos + n] == s[..n];
    if |xs| > 1 {
      assert s == render(xs[0]) + [Punct(',')] + Joined(render, xs[1..]);
      assert toks[pos + n] == s[n];
      assert toks[pos + n + 1..] == s[n + 1..];
    }
  }

  /** After an element that does not reach the end, a comma continues the list. */
  lemma TerminatedComma<T>(elem: (seq<Token>, nat) --> Result<(T, nat)>, toks: seq<Token>, pos: nat,
                           x: T, next: nat, acc: seq<T>)
    requires Advances(elem) && pos < |toks| && elem(toks, pos) == Ok((x, next))
    requires next < |toks| && toks[next] == Punct(',')
    ensures ParseTerminated(elem, toks, pos, acc) == ParseTerminated(elem, toks, next + 1, acc + [x])
  {
  }

  /** An element that reaches the end closes the list. */
  lemma TerminatedLast<T>(elem: (seq<Token>, nat) --> Result<(T, nat)>, toks: seq<Token>, pos: nat,
                          x: T, acc: seq<T>)
    requires Advances(elem) && pos < |toks| && elem(toks, pos) == Ok((x, |toks|))
    ensures ParseTerminated(elem, toks, pos, acc) == Ok(acc + [x])
  {
  }

  /** The first printed element is read back, and it is not empty. */
  lemma ReadsFirst<T>(elem: (seq<Token>, nat) --> Result<(T, nat)>, render: T -> seq<Token>,
                      toks: seq<Token>, pos: nat, xs: seq<T>)
    requires ReadsBack(elem, render, toks, xs)
    requires xs != [] && pos <= |toks| && toks[pos..] == Joined(render, xs)
    ensures pos + |render(xs[0])| <= |toks|
    ensures elem(toks, pos) == Ok((xs[0], pos + |render(xs[0])|))
    ensures pos < pos + |render(xs[0])|
    ensures |xs| == 1 ==> pos + |render(xs[0])| == |toks|
    ensures |xs| > 1 ==> pos + |render(xs[0])| < |toks|
                         && toks[pos + |render(xs[0])|] == Punct(',')
                         && toks[pos + |render(xs[0])| + 1..] == Joined(render, xs[1..])
  {
    JoinedHead(render, toks, pos, xs);
    var next := pos + |render(xs[0])|;
    forall k | 0 <= k < |render(xs[0])| ensures toks[pos + k] == render(xs[0])[k] {
      assert toks[pos + k] == toks[pos..next][k];
    }
    assert ReadsAt(elem, render, toks, xs[0], pos);
  }

  /**
   * Elements printed by `render` and joined with commas are read back by
   * `parse_terminated`, in order and however many, whenever the element
   * parser reads each printed element back.
   */
  lemma {:induction false} TerminatedRoundTrip<T>(elem: (seq<Token>, nat) --> Result<(T, nat)>,
                                                  render: T -> seq<Token>, toks: seq<Token>, pos: nat,
                                                  xs: seq<T>, acc: seq<T>)
    requires ReadsBack(elem, render, toks, xs)
    requires pos <= |toks| && toks[pos..] == Joined(render, xs)
    ensures ParseTerminated(elem, toks, pos, acc) == Ok(acc + xs)
    decreases |xs|
  {
    if xs == [] {
      assert |toks[pos..]| == 0;
      assert acc + xs == acc;
    } else {
      var next := pos + |render(xs[0])|;
      ReadsFirst(elem, render, toks, pos, xs);
      if |xs| == 1 {
        TerminatedLast(elem, toks, pos, xs[0], acc);
        assert acc + [xs[0]] == acc + xs;
      } else {
        TerminatedComma(elem, toks, pos, xs[0], next, acc);
        ReadsBackTail(elem, render, toks, xs);
        TerminatedRoundTrip(elem, render, toks, next + 1, xs[1..], acc + [xs[0]]);
        assert acc + [xs[0]] + xs[1..] == acc + xs;
      }
    }
  }
}
