/**
 * Python's `s.split(sep)` and `sep.join(parts)` for a non-empty separator,
 * on text and on bytes alike: the pieces between the non-overlapping
 * occurrences of the separator, found from the left.
 */
module TextSplit {
  import opened Wrappers

  /** `sep` occurs in `s` at index k. */
  predicate At<T(==)>(s: seq<T>, sep: seq<T>, k: nat) {
    k + |sep| <= |s| && forall j :: 0 <= j < |sep| ==> s[k + j] == sep[j]
  }

  /** The index of the first occurrence of `sep` in `s`, None when there is none. */
  function Find<T(==)>(s: seq<T>, sep: seq<T>): (r: Option<nat>)
    requires |sep| > 0
    ensures r.Some? ==> At(s, sep, r.value) && forall k: nat :: k < r.value ==> !At(s, sep, k)
    ensures r.None? ==> forall k: nat :: !At(s, sep, k)
    decreases |s|
  {
    if |s| < |sep| then None
    else if At(s, sep, 0) then Some(0)
    else
      AtTail(s, sep);
      match Find(s[1..], sep)
      case None => None
      case Some(i) => Some(i + 1)
  }

  /** Dropping the first element moves every occurrence one place to the left. */
  lemma AtTail<T>(s: seq<T>, sep: seq<T>)
    requires |s| > 0
    ensures forall k: nat :: k > 0 ==> (At(s, sep, k) <==> At(s[1..], sep, k - 1))
  {
    forall k: nat | k > 0 ensures At(s, sep, k) <==> At(s[1..], sep, k - 1) {
      if k + |sep| <= |s| {
        assert forall j :: 0 <= j < |sep| ==> (s[1..][k - 1 + j] == sep[j] <==> s[k + j] == sep[j]);
      }
    }
  }

  /** An occurrence that ends inside `a` is one in `a + b`, and the other way round. */
  lemma AtConcat<T>(a: seq<T>, b: seq<T>, sep: seq<T>, k: nat)
    requires k + |sep| <= |a|
    ensures At(a + b, sep, k) <==> At(a, sep, k)
  {
    assert forall j :: 0 <= j < |sep| ==> ((a + b)[k + j] == sep[j] <==> a[k + j] == sep[j]);
  }

  /** An occurrence with none before it is the one Find reports. */
  lemma FindFirst<T>(s: seq<T>, sep: seq<T>, i: nat)
    requires |sep| > 0 && At(s, sep, i)
    requires forall k: nat :: k < i ==> !At(s, sep, k)
    ensures Find(s, sep) == Some(i)
  {
  }

  /** What follows an occurrence does not move it. */
  lemma FindPrefix<T>(a: seq<T>, b: seq<T>, sep: seq<T>)
    requires |sep| > 0 && Find(a, sep).Some?
    ensures Find(a + b, sep) == Find(a, sep)
  {
    var i := Find(a, sep).value;
    AtConcat(a, b, sep, i);
    forall k: nat | k < i ensures !At(a + b, sep, k) {
      AtConcat(a, b, sep, k);
    }
    FindFirst(a + b, sep, i);
  }

  /** A piece with no occurrence of the separator. */
  lemma NoneBefore<T>(s: seq<T>, sep: seq<T>, i: nat)
    requires |sep| > 0 && i <= |s|
    requires forall k: nat :: k < i ==> !At(s, sep, k)
    ensures Find(s[..i], sep).None?
  {
    forall k: nat ensures !At(s[..i], sep, k) {
      if k + |sep| <= i {
        assert s == s[..i] + s[i..];
        AtConcat(s[..i], s[i..], sep, k);
      }
    }
  }

  /** `s.split(sep)`. */
  function Split<T(==)>(s: seq<T>, sep: seq<T>): (parts: seq<seq<T>>)
    requires |sep| > 0
    ensures |parts| >= 1
    ensures forall i :: 0 <= i < |parts| ==> Find(parts[i], sep).None?
    decreases |s|
  {
    match Find(s, sep)
    case None => [s]
    case Some(i) =>
      NoneBefore(s, sep, i);
      [s[..i]] + Split(s[i + |sep|..], sep)
  }

  /** `sep.join(parts)`. */
  function Join<T>(parts: seq<seq<T>>, sep: seq<T>): seq<T> {
    if |parts| == 0 then []
    else if |parts| == 1 then parts[0]
    else parts[0] + sep + Join(parts[1..], sep)
  }

  /** Splitting loses nothing: joining the pieces gives the text back. */
  lemma {:induction false} JoinSplit<T>(s: seq<T>, sep: seq<T>)
    requires |sep| > 0
    ensures Join(Split(s, sep), sep) == s
    decreases |s|
  {
    match Find(s, sep)
    case None =>
    case Some(i) =>
      var rest := s[i + |sep|..];
      var parts := Split(s, sep);
      assert parts == [s[..i]] + Split(rest, sep);
      assert parts[1..] == Split(rest, sep);
      JoinSplit(rest, sep);
      assert Join(parts, sep) == s[..i] + sep + rest;
      assert s[i..i + |sep|] == sep;
      assert s == s[..i] + s[i..i + |sep|] + rest;
  }

  /** Joining then splitting gives the pieces back when none of them contains the separator. */
  lemma {:induction false} SplitJoin<T>(parts: seq<seq<T>>, sep: seq<T>)
    requires |sep| > 0 && |parts| >= 1
    requires forall i :: 0 <= i < |parts| ==> Find(parts[i] + sep, sep) == Some(|parts[i]|)
    ensures Split(Join(parts, sep), sep) == parts
    decreases |parts|
  {
    var p := parts[0];
    if |parts| == 1 {
      assert (p + sep)[..|p|] == p;
      NoneBefore(p + sep, sep, |p|);
    } else {
      var rest := Join(parts[1..], sep);
      FindPrefix(p + sep, rest, sep);
      assert p + sep + rest == (p + sep) + rest;
      SplitJoin(parts[1..], sep);
      assert (p + sep + rest)[|p| + |sep|..] == rest;
      assert (p + sep + rest)[..|p|] == p;
    }
  }

  /** With a one-element separator, a piece is separable exactly when it does not contain it. */
  lemma SeparableSingle<T>(p: seq<T>, c: T)
    requires c !in p
    ensures Find(p + [c], [c]) == Some(|p|)
  {
    assert At(p + [c], [c], |p|);
    forall k: nat | k < |p| ensures !At(p + [c], [c], k) {
      assert (p + [c])[k] == p[k];
    }
    FindFirst(p + [c], [c], |p|);
  }

  /** With a separator of two different elements, a piece is separable when it does not contain it. */
  lemma SeparablePair<T>(p: seq<T>, sep: seq<T>)
    requires |sep| == 2 && sep[0] != sep[1] && Find(p, sep).None?
    ensures Find(p + sep, sep) == Some(|p|)
  {
    assert At(p + sep, sep, |p|);
    forall k: nat | k < |p| ensures !At(p + sep, sep, k) {
      if k + 2 <= |p| {
        AtConcat(p, sep, sep, k);
      } else {
        assert (p + sep)[k + 1] == sep[0];
      }
    }
    FindFirst(p + sep, sep, |p|);
  }

  /** Joining two non-empty runs of pieces puts one separator between them. */
  lemma {:induction false} JoinAppend<T>(xs: seq<seq<T>>, ys: seq<seq<T>>, sep: seq<T>)
    requires |xs| >= 1 && |ys| >= 1
    ensures Join(xs + ys, sep) == Join(xs, sep) + sep + Join(ys, sep)
    decreases |xs|
  {
    if |xs| == 1 {
      assert (xs + ys)[1..] == ys;
    } else {
      JoinAppend(xs[1..], ys, sep);
      assert (xs + ys)[1..] == xs[1..] + ys;
    }
  }

  lemma Join2<T>(a: seq<T>, b: seq<T>, sep: seq<T>)
    ensures Join([a, b], sep) == a + sep + b
  {
    assert [a, b][1..] == [b];
  }

  lemma Join3<T>(a: seq<T>, b: seq<T>, c: seq<T>, sep: seq<T>)
    ensures Join([a, b, c], sep) == a + sep + b + sep + c
  {
    assert [a, b, c][1..] == [b, c];
    Join2(b, c, sep);
  }
}
