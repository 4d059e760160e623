/**
 Escaping of text into PDF literal strings, against a reader of literal strings
 written from section 7.3.4.2 of ISO 32000-1.
 */
module PdfEscape {
  import opened Wrappers

  // ---- the writer ----

  function ReplaceAll(s: string, c: char, sub: string): string {
    if s == [] then [] else (if s[0] == c then sub else [s[0]]) + ReplaceAll(s[1..], c, sub)
  }

  /** The three replace passes, in order. */
  function Escape(s: string): string {
    ReplaceAll(ReplaceAll(ReplaceAll(s, '\\', "\\\\"), '(', "\\("), ')', "\\)")
  }

  function EscapeChar(c: char): string {
    if c == '\\' || c == '(' || c == ')' then ['\\', c] else [c]
  }

  function EscapeEach(s: string): string {
    if s == [] then [] else EscapeChar(s[0]) + EscapeEach(s[1..])
  }

  lemma {:induction false} ReplaceAppend(a: string, b: string, c: char, sub: string)
    ensures ReplaceAll(a + b, c, sub) == ReplaceAll(a, c, sub) + ReplaceAll(b, c, sub)
  {
    if a == [] {
      assert a + b == b;
    } else {
      assert (a + b)[1..] == a[1..] + b;
      ReplaceAppend(a[1..], b, c, sub);
    }
  }

  lemma ReplaceOne(x: char, c: char, sub: string)
    ensures ReplaceAll([x], c, sub) == if x == c then sub else [x]
  {
    assert [x][1..] == [];
  }

  lemma EscapeOne(c: char)
    ensures Escape([c]) == EscapeChar(c)
  {
    ReplaceOne(c, '\\', "\\\\");
    ReplaceOne(c, '(', "\\(");
    ReplaceOne(c, ')', "\\)");
    ReplaceOne('\\', '(', "\\(");
    ReplaceOne('\\', ')', "\\)");
    ReplaceOne('(', ')', "\\)");
    assert "\\\\" == ['\\'] + ['\\'] && "\\(" == ['\\'] + ['('];
    ReplaceAppend(['\\'], ['\\'], '(', "\\(");
    ReplaceAppend(['\\'], ['\\'], ')', "\\)");
    ReplaceAppend(['\\'], ['('], ')', "\\)");
  }

  /** The three passes equal one per-character map. */
  lemma {:induction false} PassesAreOneMap(s: string)
    ensures Escape(s) == EscapeEach(s)
  {
    if s != [] {
      var one, rest := ReplaceAll([s[0]], '\\', "\\\\"), ReplaceAll(s[1..], '\\', "\\\\");
      assert s == [s[0]] + s[1..];
      ReplaceAppend([s[0]], s[1..], '\\', "\\\\");
      ReplaceAppend(one, rest, '(', "\\(");
      ReplaceAppend(ReplaceAll(one, '(', "\\("), ReplaceAll(rest, '(', "\\("), ')', "\\)");
      EscapeOne(s[0]);
      PassesAreOneMap(s[1..]);
    }
  }

  /** Buffer.from(s, "latin1"): the low byte of every code unit. */
  function Latin1(s: string): (r: string)
    ensures |r| == |s|
    ensures forall i :: 0 <= i < |s| ==> r[i] == (s[i] as int % 256) as char
  {
    seq(|s|, i requires 0 <= i < |s| => (s[i] as int % 256) as char)
  }

  predicate AllBytes(s: string) {
    forall i :: 0 <= i < |s| ==> s[i] as int < 256
  }

  // ---- the reader ----

  datatype Literal = Literal(text: string, rest: string)

  predicate IsOctal(c: char) {
    '0' <= c <= '7'
  }

  /** Number of octal digits, at most three, at the front. */
  function OctalLength(s: string): (n: nat)
    ensures n <= |s| && n <= 3
    ensures forall i :: 0 <= i < n ==> IsOctal(s[i])
  {
    if |s| > 0 && IsOctal(s[0]) then
      if |s| > 1 && IsOctal(s[1]) then
        if |s| > 2 && IsOctal(s[2]) then 3 else 2
      else 1
    else 0
  }

  function OctalValue(s: string): nat
    requires forall i :: 0 <= i < |s| ==> IsOctal(s[i])
  {
    if s == [] then 0
    else assert IsOctal(s[|s| - 1]); 8 * OctalValue(s[..|s| - 1]) + (s[|s| - 1] as int - '0' as int)
  }

  function Prepend(c: char, r: Option<Literal>): Option<Literal> {
    if r.Some? then Some(r.value.(text := [c] + r.value.text)) else None
  }

  /** Length of an end-of-line marker at the front: CR LF, CR or LF. */
  function EolLength(s: string): (n: nat)
    ensures n <= |s|
  {
    if |s| > 1 && s[0] == '\r' && s[1] == '\n' then 2
    else if |s| > 0 && (s[0] == '\r' || s[0] == '\n') then 1
    else 0
  }

  /**
   Reads a literal string after its opening parenthesis, `depth` unescaped
   parentheses deep; None when it does not end. High-order overflow of an octal
   code is ignored; an end of line reads as LF, an escaped one as nothing; a
   reverse solidus before any other character is ignored.
   */
  function ReadLiteral(s: string, depth: nat): Option<Literal>
    decreases |s|
  {
    if s == [] then None
    else if s[0] == ')' then
      if depth == 0 then Some(Literal("", s[1..])) else Prepend(')', ReadLiteral(s[1..], depth - 1))
    else if s[0] == '(' then Prepend('(', ReadLiteral(s[1..], depth + 1))
    else if s[0] == '\\' then ReadEscape(s[1..], depth)
    else if EolLength(s) > 0 then Prepend('\n', ReadLiteral(s[EolLength(s)..], depth))
    else Prepend(s[0], ReadLiteral(s[1..], depth))
  }

  function ReadEscape(s: string, depth: nat): Option<Literal>
    decreases |s|
  {
    if s == [] then None
    else if s[0] == 'n' then Prepend('\n', ReadLiteral(s[1..], depth))
    else if s[0] == 'r' then Prepend('\r', ReadLiteral(s[1..], depth))
    else if s[0] == 't' then Prepend('\t', ReadLiteral(s[1..], depth))
    else if s[0] == 'b' then Prepend(8 as char, ReadLiteral(s[1..], depth))
    else if s[0] == 'f' then Prepend(12 as char, ReadLiteral(s[1..], depth))
    else if OctalLength(s) > 0 then
      Prepend((OctalValue(s[..OctalLength(s)]) % 256) as char, ReadLiteral(s[OctalLength(s)..], depth))
    else if EolLength(s) > 0 then ReadLiteral(s[EolLength(s)..], depth)
    else Prepend(s[0], ReadLiteral(s[1..], depth))
  }

  // ---- the round trip ----

  /** Every end-of-line marker as a single LF. */
  function NormalizeEol(t: string): string {
    if t == [] then []
    else if EolLength(t) > 0 then ['\n'] + NormalizeEol(t[EolLength(t)..])
    else [t[0]] + NormalizeEol(t[1..])
  }

  lemma {:induction false} NormalizeChanges(t: string)
    ensures NormalizeEol(t) == t <==> '\r' !in t
    ensures |NormalizeEol(t)| <= |t|
  {
    if t != [] {
      var n := if EolLength(t) > 0 then EolLength(t) else 1;
      NormalizeChanges(t[n..]);
      assert t == t[..n] + t[n..];
    }
  }

  lemma ReadsEscaped(c: char, tail: string)
    requires c == '\\' || c == '(' || c == ')'
    ensures ReadLiteral(['\\', c] + tail, 0) == Prepend(c, ReadLiteral(tail, 0))
  {
    var s := ['\\', c] + tail;
    assert s[1..] == [c] + tail && s[1..][1..] == tail;
  }

  lemma ReadsPlain(c: char, tail: string)
    requires c != '\\' && c != '(' && c != ')' && c != '\r'
    ensures ReadLiteral([c] + tail, 0) == Prepend(c, ReadLiteral(tail, 0))
  {
    assert ([c] + tail)[1..] == tail;
  }

  /** A CR, alone or with its LF, reads as one LF. */
  lemma ReadsCr(tail: string)
    ensures tail == [] || tail[0] != '\n' ==> ReadLiteral(['\r'] + tail, 0) == Prepend('\n', ReadLiteral(tail, 0))
    ensures tail != [] && tail[0] == '\n' ==> ReadLiteral(['\r'] + tail, 0) == Prepend('\n', ReadLiteral(tail[1..], 0))
  {
    var s := ['\r'] + tail;
    assert s[1..] == tail;
    assert tail != [] ==> s[2..] == tail[1..];
  }

  /** Escaped text and all that follows it. */
  function Closed(t: string, rest: string): string {
    EscapeEach(t) + ")" + rest
  }

  lemma ClosedCons(t: string, rest: string)
    requires t != []
    ensures Closed(t, rest) == EscapeChar(t[0]) + Closed(t[1..], rest)
  {
  }

  lemma NormalizeCons(t: string)
    requires t != []
    ensures t[0] != '\r' ==> NormalizeEol(t) == [t[0]] + NormalizeEol(t[1..])
    ensures t[0] == '\r' && (|t| == 1 || t[1] != '\n') ==> NormalizeEol(t) == ['\n'] + NormalizeEol(t[1..])
    ensures t[0] == '\r' && |t| > 1 && t[1] == '\n' ==> NormalizeEol(t) == ['\n'] + NormalizeEol(t[2..])
  {
  }

  /** The reader stops at the parenthesis the writer added, with the text up to line ends. */
  lemma {:induction false} ReadEscaped(t: string, rest: string)
    ensures ReadLiteral(Closed(t, rest), 0) == Some(Literal(NormalizeEol(t), rest))
    decreases |t|
  {
    if t == [] {
      assert Closed(t, rest) == ")" + rest;
    } else {
      hide ReadLiteral, NormalizeEol, Closed, EscapeEach;
      var c, tail := t[0], Closed(t[1..], rest);
      ClosedCons(t, rest);
      NormalizeCons(t);
      if c == '\r' && |t| > 1 && t[1] == '\n' {
        assert t[1..][1..] == t[2..];
        ClosedCons(t[1..], rest);
        assert tail == ['\n'] + Closed(t[2..], rest) && tail[1..] == Closed(t[2..], rest);
        ReadEscaped(t[2..], rest);
        ReadsCr(tail);
      } else {
        ReadEscaped(t[1..], rest);
        if c == '\\' || c == '(' || c == ')' {
          ReadsEscaped(c, tail);
        } else if c == '\r' {
          ClosedHead(t[1..], rest);
          ReadsCr(tail);
        } else {
          ReadsPlain(c, tail);
        }
      }
    }
  }

  lemma ClosedHead(t: string, rest: string)
    ensures |Closed(t, rest)| > 0 && (Closed(t, rest)[0] == '\n' <==> t != [] && t[0] == '\n')
  {
    if t != [] { ClosedCons(t, rest); }
  }

  lemma {:induction false} EscapeBytes(t: string)
    ensures AllBytes(t) <==> AllBytes(EscapeEach(t))
  {
    if t != [] {
      EscapeBytes(t[1..]);
      assert t == [t[0]] + t[1..];
      var e, r := EscapeChar(t[0]), EscapeEach(t[1..]);
      assert AllBytes(e + r) <==> AllBytes(e) && AllBytes(r) by {
        assert forall i :: 0 <= i < |e| ==> (e + r)[i] == e[i];
        assert forall i :: 0 <= i < |r| ==> (e + r)[|e| + i] == r[i];
      }
      assert AllBytes([t[0]] + t[1..]) <==> t[0] as int < 256 && AllBytes(t[1..]) by {
        assert forall i :: 0 <= i < |t[1..]| ==> t[1..][i] == t[i + 1];
      }
      assert e[|e| - 1] == t[0];
    }
  }

  /** A reader of bytes only ever returns bytes. */
  lemma {:induction false} ReadsBytes(s: string, depth: nat)
    requires AllBytes(s)
    ensures ReadLiteral(s, depth).Some? ==> AllBytes(ReadLiteral(s, depth).value.text)
    decreases |s|, 1
  {
    if s != [] {
      if s[0] == ')' && depth > 0 {
        ReadsBytes(s[1..], depth - 1);
      } else if s[0] == '(' {
        ReadsBytes(s[1..], depth + 1);
      } else if s[0] == '\\' {
        EscapeReadsBytes(s[1..], depth);
      } else if s[0] != ')' {
        ReadsBytes(s[if EolLength(s) > 0 then EolLength(s) else 1..], depth);
      }
    }
  }

  lemma {:induction false} EscapeReadsBytes(s: string, depth: nat)
    requires AllBytes(s)
    ensures ReadEscape(s, depth).Some? ==> AllBytes(ReadEscape(s, depth).value.text)
    decreases |s|, 0
  {
    if s != [] {
      var o, e := OctalLength(s), EolLength(s);
      var plain, octal := ReadLiteral(s[1..], depth), ReadLiteral(s[o..], depth);
      ReadsBytes(s[1..], depth);
      if o > 0 { ReadsBytes(s[o..], depth); }
      if e > 0 { ReadsBytes(s[e..], depth); }
      var r := ReadEscape(s, depth);
      assert r == plain || r == ReadLiteral(s[e..], depth)
             || (o > 0 && r == Prepend((OctalValue(s[..o]) % 256) as char, octal))
             || exists c: char :: c as int < 256 && r == Prepend(c, plain);
    }
  }

  lemma Latin1Bytes(s: string)
    ensures AllBytes(Latin1(s)) && (AllBytes(s) <==> Latin1(s) == s)
  {
    if AllBytes(s) {
      assert Latin1(s) == s;
    }
  }

  /**
   An escaped text, written as latin1 and closed, reads back as itself with the
   reader stopped exactly at the added parenthesis if and only if it has no CR
   and no code unit above 255.
   */
  lemma EscapeRoundTrip(t: string, rest: string)
    requires AllBytes(rest)
    ensures ReadLiteral(Latin1(Escape(t)) + ")" + rest, 0) == Some(Literal(t, rest))
            <==> '\r' !in t && AllBytes(t)
  {
    PassesAreOneMap(t);
    EscapeBytes(t);
    Latin1Bytes(Escape(t));
    NormalizeChanges(t);
    ReadEscaped(t, rest);
    if !AllBytes(t) {
      assert AllBytes(Latin1(Escape(t)) + ")" + rest);
      ReadsBytes(Latin1(Escape(t)) + ")" + rest, 0);
    }
  }
}
