/** First occurrences and JavaScript's split by a separator. */
module Splitting {
  import opened Wrappers
  import opened Strings

  /** indexOf: the first place where p occurs. */
  function Find(s: string, p: string): (r: Option<nat>)
    ensures r.Some? ==> r.value + |p| <= |s|
  {
    if StartsWith(s, p) then Some(0)
    else if s == [] then None
    else var r := Find(s[1..], p); if r.Some? then Some(r.value + 1) else None
  }

  /** The pieces of s that a separator ends. */
  function Pieces(s: string, sep: string): seq<string>
    requires sep != []
    decreases |s|
  {
    var i := Find(s, sep);
    if i.None? then [] else [s[..i.value]] + Pieces(s[i.value + |sep|..], sep)
  }

  /** What follows the last separator. */
  function Remainder(s: string, sep: string): string
    requires sep != []
    decreases |s|
  {
    var i := Find(s, sep);
    if i.None? then s else Remainder(s[i.value + |sep|..], sep)
  }

  /** s.split(sep). */
  function Split(s: string, sep: string): seq<string>
    requires sep != []
  {
    Pieces(s, sep) + [Remainder(s, sep)]
  }

  /** Pieces put back, each followed by the separator. */
  function Glue(pieces: seq<string>, sep: string): string {
    if pieces == [] then "" else pieces[0] + sep + Glue(pieces[1..], sep)
  }

  lemma {:induction false} FoundThere(s: string, p: string)
    requires Find(s, p).Some?
    ensures StartsWith(s[Find(s, p).value..], p)
  {
    if !StartsWith(s, p) {
      FoundThere(s[1..], p);
    }
  }

  lemma FindNext(s: string, p: string)
    requires s != [] && !StartsWith(s, p)
    ensures Find(s, p).Some? <==> Find(s[1..], p).Some?
    ensures Find(s, p).Some? ==> Find(s, p).value == Find(s[1..], p).value + 1
  {
  }

  /** An occurrence is found at the same place after more text has arrived. */
  lemma {:induction false} FindAppend(s: string, t: string, p: string)
    requires Find(s, p).Some?
    ensures Find(s + t, p) == Find(s, p)
  {
    if StartsWith(s, p) {
      assert (s + t)[..|p|] == s[..|p|];
    } else {
      assert s != [];
      assert (s + t)[1..] == s[1..] + t;
      assert (s + t)[..|p|] == s[..|p|];
      FindAppend(s[1..], t, p);
    }
  }

  /** A stretch where no occurrence starts is skipped. */
  lemma {:induction false} FindSkip(a: string, s: string, p: string)
    requires forall i :: 0 <= i < |a| ==> !StartsWith((a + s)[i..], p)
    requires Find(s, p).Some?
    ensures Find(a + s, p) == Some(|a| + Find(s, p).value)
  {
    if a == [] {
      assert a + s == s;
    } else {
      assert (a + s)[0..] == a + s;
      assert (a + s)[1..] == a[1..] + s;
      forall i | 0 <= i < |a[1..]|
        ensures !StartsWith((a[1..] + s)[i..], p)
      {
        assert (a[1..] + s)[i..] == (a + s)[i + 1..];
      }
      FindSkip(a[1..], s, p);
      FindNext(a + s, p);
    }
  }

  lemma CutAround(s: string, i: nat, sep: string)
    requires i + |sep| <= |s| && StartsWith(s[i..], sep)
    ensures s == s[..i] + sep + s[i + |sep|..]
  {
    assert s[i..] == s[i..][..|sep|] + s[i..][|sep|..];
  }

  /** The pieces and the remainder rebuild the text. */
  lemma {:induction false} PiecesRebuild(s: string, sep: string)
    requires sep != []
    ensures s == Glue(Pieces(s, sep), sep) + Remainder(s, sep)
    decreases |s|
  {
    hide Find, StartsWith;
    var i := Find(s, sep);
    if i.Some? {
      var rest := s[i.value + |sep|..];
      FoundThere(s, sep);
      CutAround(s, i.value, sep);
      PiecesRebuild(rest, sep);
      assert ([s[..i.value]] + Pieces(rest, sep))[1..] == Pieces(rest, sep);
      assert s[..i.value] + sep + (Glue(Pieces(rest, sep), sep) + Remainder(rest, sep))
             == s[..i.value] + sep + Glue(Pieces(rest, sep), sep) + Remainder(rest, sep);
    }
  }

  lemma TakeDropAppend(s: string, t: string, i: nat, j: nat)
    requires i <= j <= |s|
    ensures (s + t)[..i] == s[..i] && (s + t)[j..] == s[j..] + t
  {
  }

  /** Splitting can stop after any text and go on when more arrives. */
  lemma {:induction false} PiecesAppend(s: string, t: string, sep: string)
    requires sep != []
    ensures Pieces(s + t, sep) == Pieces(s, sep) + Pieces(Remainder(s, sep) + t, sep)
    ensures Remainder(s + t, sep) == Remainder(Remainder(s, sep) + t, sep)
    decreases |s|
  {
    hide Find;
    var i := Find(s, sep);
    if i.Some? {
      var rest := s[i.value + |sep|..];
      FindAppend(s, t, sep);
      PiecesAppend(rest, t, sep);
      TakeDropAppend(s, t, i.value, i.value + |sep|);
    } else {
      assert [] + Pieces(s + t, sep) == Pieces(s + t, sep);
    }
  }

  lemma PiecesFirst(first: string, rest: string, sep: string)
    requires sep != [] && Find(first + sep + rest, sep) == Some(|first|)
    ensures Pieces(first + sep + rest, sep) == [first] + Pieces(rest, sep)
    ensures Remainder(first + sep + rest, sep) == Remainder(rest, sep)
  {
    assert (first + sep + rest)[..|first|] == first;
    assert (first + sep + rest)[|first| + |sep|..] == rest;
  }
}
