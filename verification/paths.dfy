/** Slash-separated strings: JavaScript's `s.split('/')`, `parts.join('/')`
    and `split('/').at(-1)`, with the facts the output layout relies on. */
module Paths {

  const Slash: char := '/'

  /** The index of the first slash of `s`, or `|s|` when it has none. */
  function SlashIndex(s: string): (i: nat)
    ensures i <= |s|
    ensures forall k | 0 <= k < i :: s[k] != Slash
    ensures i < |s| ==> s[i] == Slash
  {
    if |s| == 0 || s[0] == Slash then 0 else 1 + SlashIndex(s[1..])
  }

  /** `s.split('/')`: the maximal slash-free pieces of `s`, in order. The
      empty string splits into one empty piece, and a leading, trailing or
      doubled slash yields an empty piece. */
  function Split(s: string): (parts: seq<string>)
    ensures |parts| >= 1
    decreases |s|
  {
    var i := SlashIndex(s);
    if i == |s| then [s] else [s[..i]] + Split(s[i + 1..])
  }

  /** `parts.join('/')`. */
  function Join(parts: seq<string>): string {
    if |parts| == 0 then ""
    else if |parts| == 1 then parts[0]
    else parts[0] + [Slash] + Join(parts[1..])
  }

  /** `seg` is a suffix of `s` that is all of `s` or follows a slash. */
  predicate EndsAfterSlash(s: string, seg: string) {
    |seg| <= |s| && s[|s| - |seg|..] == seg && (|seg| == |s| || s[|s| - |seg| - 1] == Slash)
  }

  /** `s.split('/').at(-1)`: the text after the last slash, or all of `s`
      when it has none. */
  function LastSegment(s: string): string
    decreases |s|
  {
    var i := SlashIndex(s);
    if i == |s| then s else LastSegment(s[i + 1..])
  }

  /** The last segment has no slash and is a suffix of `s` that is all of
      `s` or follows a slash: the longest slash-free suffix. */
  lemma {:induction false} LastSegmentShape(s: string)
    ensures Slash !in LastSegment(s)
    ensures EndsAfterSlash(s, LastSegment(s))
    decreases |s|
  {
    var i := SlashIndex(s);
    if i == |s| {
      assert forall c | c in s :: c != Slash;
      assert s[0..] == s;
    } else {
      LastSegmentShape(s[i + 1..]);
      AfterSlashExtends(s, i, LastSegment(s[i + 1..]));
    }
  }

  /** Any index with no slash before it and a slash (or the end) at it is
      the first slash. */
  lemma FirstSlash(s: string, i: nat)
    requires i <= |s|
    requires forall k | 0 <= k < i :: s[k] != Slash
    requires i < |s| ==> s[i] == Slash
    ensures SlashIndex(s) == i
  {
  }

  /** No piece of `parts` contains a slash. */
  predicate SlashFree(parts: seq<string>) {
    forall k | 0 <= k < |parts| :: Slash !in parts[k]
  }

  /** No piece of a split contains a slash. */
  lemma {:induction false} PiecesAreSlashFree(s: string)
    ensures SlashFree(Split(s))
    decreases |s|
  {
    var i := SlashIndex(s);
    assert Slash !in s[..i] by {
      assert forall c | c in s[..i] :: c != Slash;
    }
    if i < |s| {
      PiecesAreSlashFree(s[i + 1..]);
      var rest := Split(s[i + 1..]);
      var parts := Split(s);
      assert parts == [s[..i]] + rest;
      forall k | 0 < k < |parts|
        ensures Slash !in parts[k]
      {
        assert parts[k] == rest[k - 1];
      }
    }
  }

  /** A suffix of the text after a slash is a suffix of the whole. */
  lemma AfterSlashExtends(s: string, i: nat, seg: string)
    requires i < |s| && s[i] == Slash
    requires EndsAfterSlash(s[i + 1..], seg)
    ensures EndsAfterSlash(s, seg)
  {
    var tail := s[i + 1..];
    assert s[|s| - |seg|..] == tail[|tail| - |seg|..];
    if |seg| == |tail| {
      assert s[|s| - |seg| - 1] == s[i];
    } else {
      assert s[|s| - |seg| - 1] == tail[|tail| - |seg| - 1];
    }
  }

  /** `LastSegment` is the last piece of the split. */
  lemma {:induction false} LastSegmentIsLastPiece(s: string)
    ensures LastSegment(s) == Split(s)[|Split(s)| - 1]
    decreases |s|
  {
    var i := SlashIndex(s);
    var parts := Split(s);
    if i < |s| {
      var tail := s[i + 1..];
      var rest := Split(tail);
      LastSegmentIsLastPiece(tail);
      assert parts == [s[..i]] + rest;
    }
  }

  /** A string splits into a single piece exactly when it has no slash. */
  lemma {:induction false} SplitSlashCount(s: string)
    ensures |Split(s)| == 1 <==> Slash !in s
    ensures Slash !in s ==> Split(s) == [s]
  {
    var i := SlashIndex(s);
    if i == |s| {
      assert forall c | c in s :: c != Slash;
    } else {
      assert Split(s) == [s[..i]] + Split(s[i + 1..]);
      assert s[i] == Slash;
    }
  }

  /** Splitting undoes joining: `s.split('/').join('/') == s` for every `s`. */
  lemma {:induction false} JoinSplit(s: string)
    ensures Join(Split(s)) == s
    decreases |s|
  {
    var i := SlashIndex(s);
    var parts := Split(s);
    if i < |s| {
      var tail := s[i + 1..];
      var rest := Split(tail);
      assert s == s[..i] + [Slash] + tail;
      JoinSplit(tail);
      assert parts == [s[..i]] + rest;
      assert parts[0] == s[..i] && parts[1..] == rest;
      assert Join(parts) == s[..i] + [Slash] + Join(rest);
    } else {
      assert parts == [s];
    }
  }

  /** Joining slash-free pieces and splitting again gives the pieces back. */
  lemma {:induction false} SplitJoin(parts: seq<string>)
    requires |parts| >= 1
    requires SlashFree(parts)
    ensures Split(Join(parts)) == parts
    decreases |parts|
  {
    SplitSlashCount(parts[0]);
    if |parts| > 1 {
      var rest := parts[1..];
      assert SlashFree(rest) by {
        forall k | 0 <= k < |rest| ensures Slash !in rest[k] {
          assert rest[k] == parts[k + 1];
        }
      }
      SplitJoin(rest);
      assert Join(parts) == parts[0] + [Slash] + Join(rest);
      SplitConcat(parts[0], Join(rest));
      assert parts == [parts[0]] + rest;
    }
  }

  /** Splitting `a + "/" + b` splits `a` and `b` separately: the slash
      between them is exactly one piece boundary. */
  lemma {:induction false} SplitConcat(a: string, b: string)
    ensures Split(a + [Slash] + b) == Split(a) + Split(b)
    decreases |a|
  {
    var whole := a + [Slash] + b;
    var i := SlashIndex(a);
    assert whole[i] == Slash by {
      if i < |a| {
        assert whole[i] == a[i];
      }
    }
    FirstSlash(whole, i);
    assert whole[..i] == a[..i];
    var rest := Split(whole[i + 1..]);
    assert Split(whole) == [a[..i]] + rest;
    if i == |a| {
      assert whole[i + 1..] == b;
      assert a[..i] == a;
      assert Split(a) == [a];
      assert Split(whole) == [a] + Split(b);
    } else {
      var tail := a[i + 1..];
      assert whole[i + 1..] == tail + [Slash] + b;
      SplitConcat(tail, b);
      assert Split(a) == [a[..i]] + Split(tail);
    }
  }
}
