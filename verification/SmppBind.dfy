/**
 The raw bind PDU tool: the PDU it prints, the parser of PDUs, and the
 reassembly of a PDU from received chunks (sections 3.2 and 4.1.5 of SMPP v3.4).
 */
module SmppBind {
  import opened Wrappers

  type Byte = x: int | 0 <= x < 256

  const U32 := 0x1_0000_0000
  const HEADER_LENGTH := 16

  // ---- encodings ----

  /** writeUInt32BE. */
  function Word(n: int): (r: seq<Byte>)
    requires 0 <= n < U32
    ensures |r| == 4
  {
    [n / 0x100_0000, n / 0x1_0000 % 256, n / 256 % 256, n % 256]
  }

  /** readUInt32BE at position i. */
  function ReadWord(s: seq<Byte>, i: nat): (n: int)
    requires i + 4 <= |s|
    ensures 0 <= n < U32
  {
    0x100_0000 * (s[i] as int) + 0x1_0000 * (s[i + 1] as int) + 256 * (s[i + 2] as int) + s[i + 3] as int
  }

  /** Buffer.from(s, "ascii") keeps the low byte of each code unit. */
  function Encode(s: string): (r: seq<Byte>)
    ensures |r| == |s| && forall i :: 0 <= i < |s| ==> r[i] == s[i] as int % 256
  {
    seq(|s|, i requires 0 <= i < |s| => s[i] as int % 256)
  }

  /** toString("ascii") masks the high bit of each byte. */
  function Decode(b: seq<Byte>): (r: string)
    ensures |r| == |b| && forall i :: 0 <= i < |b| ==> r[i] == (b[i] % 128) as char
  {
    seq(|b|, i requires 0 <= i < |b| => (b[i] % 128) as char)
  }

  function HexDigit(n: int): char
    requires 0 <= n < 16
  {
    "0123456789abcdef"[n]
  }

  function Hex(b: seq<Byte>): string {
    if b == [] then "" else [HexDigit(b[0] / 16), HexDigit(b[0] % 16)] + Hex(b[1..])
  }

  function HexValue(c: char): Option<int> {
    if '0' <= c <= '9' then Some(c as int - '0' as int)
    else if 'a' <= c <= 'f' then Some(10 + c as int - 'a' as int)
    else None
  }

  /** The bytes that pairs of hex digits stand for, high digit first. */
  function Unhex(s: string): Option<seq<Byte>> {
    if s == [] then Some([])
    else if |s| < 2 then None
    else
      var hi, lo, rest := HexValue(s[0]), HexValue(s[1]), Unhex(s[2..]);
      if hi.Some? && lo.Some? && rest.Some? then Some([16 * hi.value + lo.value] + rest.value) else None
  }

  lemma HexDigitRead(n: int)
    requires 0 <= n < 16
    ensures HexValue(HexDigit(n)) == Some(n)
  {
  }

  /** The hex form of a body determines its bytes. */
  lemma {:induction false} HexRoundTrip(b: seq<Byte>)
    ensures Unhex(Hex(b)) == Some(b)
  {
    if |b| > 0 {
      hide HexDigit, HexValue;
      HexDigitRead(b[0] / 16);
      HexDigitRead(b[0] % 16);
      HexRoundTrip(b[1..]);
      assert Hex(b)[2..] == Hex(b[1..]);
      assert [b[0]] + b[1..] == b;
    }
  }

  // ---- the printer ----

  /** A C-octet string: the characters and a NUL. */
  function CString(s: string): seq<Byte> {
    Encode(s) + [0]
  }

  function BindBody(systemId: string, password: string, systemType: string, version: int, addressRange: string): seq<Byte> {
    CString(systemId) + CString(password) + CString(systemType)
    + [version % 256] + [0] + [0] + CString(addressRange)
  }

  function Header(length: int, commandId: int, status: int, sequence: int): (r: seq<Byte>)
    requires 0 <= length < U32 && 0 <= commandId < U32 && 0 <= status < U32 && 0 <= sequence < U32
    ensures |r| == HEADER_LENGTH
  {
    Word(length) + Word(commandId) + Word(status) + Word(sequence)
  }

  /** None when a header field is out of range, which the writer refuses. */
  function BuildBindPdu(systemId: string, password: string, systemType: string, version: int,
                        commandId: int, addressRange: string, sequence: int): Option<seq<Byte>>
  {
    var body := BindBody(systemId, password, systemType, version, addressRange);
    if HEADER_LENGTH + |body| < U32 && 0 <= commandId < U32 && 0 <= sequence < U32
    then Some(Header(HEADER_LENGTH + |body|, commandId, 0, sequence) + body) else None
  }

  // ---- the parser ----

  datatype Pdu = Pdu(length: int, commandId: int, status: int, sequence: int, bodyHex: string, strings: seq<string>)

  function ZeroAt(b: seq<Byte>): (n: nat)
    ensures n <= |b| && (n < |b| ==> b[n] == 0)
  {
    if b == [] || b[0] == 0 then 0 else 1 + ZeroAt(b[1..])
  }

  /** The NUL-ended strings of a body; an unended tail is given in hex. */
  function BodyStrings(b: seq<Byte>): seq<string>
    decreases |b|
  {
    if b == [] then []
    else
      var n := ZeroAt(b);
      if n == |b| then [Hex(b)] else [Decode(b[..n])] + BodyStrings(b[n + 1..])
  }

  /** subarray(16, length), clamped to the buffer. */
  function BodyOf(buf: seq<Byte>, length: int): seq<Byte>
    requires |buf| >= HEADER_LENGTH
  {
    if length <= HEADER_LENGTH then [] else buf[HEADER_LENGTH..if length <= |buf| then length else |buf|]
  }

  /** None when a header read is out of range, which throws. */
  function Parse(buf: seq<Byte>): Option<Pdu> {
    if |buf| < HEADER_LENGTH then None
    else
      var body := BodyOf(buf, ReadWord(buf, 0));
      Some(Pdu(ReadWord(buf, 0), ReadWord(buf, 4), ReadWord(buf, 8), ReadWord(buf, 12), Hex(body), BodyStrings(body)))
  }

  /** The scanning loop over a body. */
  method ScanStrings(body: seq<Byte>) returns (strings: seq<string>)
    ensures strings == BodyStrings(body)
  {
    hide Hex, Decode, ZeroAt, BodyStrings;
    strings := [];
    assert body[0..] == body;
    NoStrings();
    var i := 0;
    while i < |body|
      invariant 0 <= i <= |body|
      invariant strings + BodyStrings(body[i..]) == BodyStrings(body)
      decreases |body| - i
    {
      var n := ZeroAt(body[i..]);
      NextString(body, i, strings);
      if i + n == |body| {
        strings := strings + [Hex(body[i..])];
        return;
      }
      strings := strings + [Decode(body[i..i + n])];
      i := i + n + 1;
    }
    assert body[i..] == [];
  }

  lemma NoStrings()
    ensures BodyStrings([]) == []
  {
  }

  /** The string at position i, found so far `strings`. */
  lemma NextString(body: seq<Byte>, i: nat, strings: seq<string>)
    requires i < |body|
    ensures var n := ZeroAt(body[i..]);
            strings + BodyStrings(body[i..]) ==
            if i + n == |body| then strings + [Hex(body[i..])]
            else strings + [Decode(body[i..i + n])] + BodyStrings(body[i + n + 1..])
  {
    hide Hex, Decode, ZeroAt;
    var b, n := body[i..], ZeroAt(body[i..]);
    if n < |b| {
      assert b[n + 1..] == body[i + n + 1..] && b[..n] == body[i..i + n];
    }
  }

  method ParsePdu(buf: seq<Byte>) returns (r: Option<Pdu>)
    ensures r == Parse(buf)
  {
    if |buf| < HEADER_LENGTH {
      return None;
    }
    var body := BodyOf(buf, ReadWord(buf, 0));
    var strings := ScanStrings(body);
    r := Some(Pdu(ReadWord(buf, 0), ReadWord(buf, 4), ReadWord(buf, 8), ReadWord(buf, 12), Hex(body), strings));
  }

  // ---- reassembly ----

  datatype Outcome = Waiting | Handled(pdu: Pdu) | Threw

  /** What one call of handleResponse does with the bytes received so far. */
  function Respond(data: seq<Byte>): Outcome {
    if |data| < 4 || |data| < ReadWord(data, 0) then Waiting
    else
      var p := Parse(data[..ReadWord(data, 0)]);
      if p.Some? then Handled(p.value) else Threw
  }

  /** Bytes received chunk by chunk, until the process ends by handling a PDU or throwing. */
  function Feed(data: seq<Byte>, chunks: seq<seq<Byte>>): Outcome
    decreases |chunks|
  {
    if chunks == [] then Waiting
    else
      var r := Respond(data + chunks[0]);
      if r.Waiting? then Feed(data + chunks[0], chunks[1..]) else r
  }

  class Receiver {
    var receivedData: seq<Byte>
    var outcome: Outcome

    constructor ()
      ensures receivedData == [] && outcome == Waiting
    {
      receivedData := [];
      outcome := Waiting;
    }

    method OnData(chunk: seq<Byte>)
      requires outcome.Waiting?
      modifies this
      ensures receivedData == old(receivedData) + chunk && outcome == Respond(receivedData)
    {
      receivedData := receivedData + chunk;
      if |receivedData| >= 4 {
        var length := ReadWord(receivedData, 0);
        if |receivedData| >= length {
          var p := ParsePdu(receivedData[..length]);
          outcome := if p.Some? then Handled(p.value) else Threw;
        }
      }
    }
  }

  // ---- the round trip ----

  /** ASCII without NUL. */
  predicate CleanText(s: string) {
    forall i :: 0 <= i < |s| ==> 0 < s[i] as int < 128
  }

  lemma WordRoundTrip(n: int, s: seq<Byte>, i: nat)
    requires 0 <= n < U32 && i + 4 <= |s| && s[i..i + 4] == Word(n)
    ensures ReadWord(s, i) == n
  {
    assert s[i] == s[i..i + 4][0] && s[i + 1] == s[i..i + 4][1];
    assert s[i + 2] == s[i..i + 4][2] && s[i + 3] == s[i..i + 4][3];
    Base256(n);
  }

  lemma Base256(n: int)
    requires 0 <= n
    ensures n == 0x100_0000 * (n / 0x100_0000) + 0x1_0000 * (n / 0x1_0000 % 256) + 256 * (n / 256 % 256) + n % 256
  {
    var a, b, c := n / 256, n / 0x1_0000, n / 0x100_0000;
    assert n == 256 * a + n % 256;
    assert b == a / 256 && a == 256 * b + a % 256;
    assert c == b / 256 && b == 256 * c + b % 256;
  }

  lemma CleanDecode(s: string)
    requires CleanText(s)
    ensures Decode(Encode(s)) == s
    ensures forall i :: 0 <= i < |s| ==> Encode(s)[i] != 0
  {
  }

  lemma {:induction false} ZeroFound(a: seq<Byte>, rest: seq<Byte>)
    requires forall i :: 0 <= i < |a| ==> a[i] != 0
    ensures ZeroAt(a + [0] + rest) == |a|
  {
    if a == [] {
      assert a + [0] + rest == [0] + rest;
    } else {
      assert (a + [0] + rest)[1..] == a[1..] + [0] + rest;
      ZeroFound(a[1..], rest);
    }
  }

  /** A clean string at the front of a body is read whole. */
  lemma StringRead(s: string, rest: seq<Byte>)
    requires CleanText(s)
    ensures BodyStrings(CString(s) + rest) == [s] + BodyStrings(rest)
  {
    var b := CString(s) + rest;
    CleanDecode(s);
    ZeroFound(Encode(s), rest);
    assert b[..|s|] == Encode(s);
    assert b[|s| + 1..] == rest;
  }

  /** A tail without its NUL is given in hex, from which its bytes can be read. */
  lemma UnendedTail(b: seq<Byte>)
    requires |b| > 0 && forall i :: 0 <= i < |b| ==> b[i] != 0
    ensures BodyStrings(b) == [Hex(b)] && Unhex(BodyStrings(b)[0]) == Some(b)
  {
    HexRoundTrip(b);
    assert ZeroAt(b) == |b|;
  }

  /**
   The strings of a bind body: the version byte and addr_ton read as a
   one-character string, addr_npi as an empty one.
   */
  lemma BindBodyRead(systemId: string, password: string, systemType: string, version: int, addressRange: string)
    requires CleanText(systemId) && CleanText(password) && CleanText(systemType) && CleanText(addressRange)
    requires 0 < version < 128
    ensures BodyStrings(BindBody(systemId, password, systemType, version, addressRange))
            == [systemId, password, systemType, [version as char], "", addressRange]
  {
    var t6 := CString(addressRange);
    var t5 := CString("") + t6;
    var t4 := CString([version as char]) + t5;
    var t3 := CString(systemType) + t4;
    var t2 := CString(password) + t3;
    BodyParts(systemId, password, systemType, version, addressRange);
    assert t6 + [] == t6;
    StringsAre([systemId, password, systemType, [version as char], "", addressRange],
               [CString(systemId) + t2, t2, t3, t4, t5, t6, []]);
  }

  lemma BodyParts(systemId: string, password: string, systemType: string, version: int, addressRange: string)
    requires 0 < version < 128
    ensures BindBody(systemId, password, systemType, version, addressRange)
            == CString(systemId) + (CString(password) + (CString(systemType) + (CString([version as char])
               + (CString("") + CString(addressRange)))))
  {
    assert CString("") == [0];
    assert CString([version as char]) == [version % 256] + [0];
  }

  /** tails[i] is string i followed by tails[i + 1]; read in turn, they give the strings. */
  lemma {:induction false} StringsAre(strings: seq<string>, tails: seq<seq<Byte>>)
    requires |tails| == |strings| + 1 && tails[|strings|] == []
    requires forall i :: 0 <= i < |strings| ==> CleanText(strings[i]) && tails[i] == CString(strings[i]) + tails[i + 1]
    ensures BodyStrings(tails[0]) == strings
    decreases |strings|
  {
    if strings != [] {
      StringRead(strings[0], tails[1]);
      StringsAre(strings[1..], tails[1..]);
    }
  }

  lemma HeaderRead(length: int, commandId: int, sequence: int, body: seq<Byte>)
    requires 0 <= length < U32 && 0 <= commandId < U32 && 0 <= sequence < U32
    ensures var pdu := Header(length, commandId, 0, sequence) + body;
            && ReadWord(pdu, 0) == length && ReadWord(pdu, 4) == commandId
            && ReadWord(pdu, 8) == 0 && ReadWord(pdu, 12) == sequence
            && pdu[HEADER_LENGTH..] == body
  {
    var a, b, c, d := Word(length), Word(commandId), Word(0), Word(sequence);
    var pdu := a + b + c + d + body;
    assert pdu[0..4] == a && pdu[4..8] == b && pdu[8..12] == c && pdu[12..16] == d;
    WordRoundTrip(length, pdu, 0);
    WordRoundTrip(commandId, pdu, 4);
    WordRoundTrip(0, pdu, 8);
    WordRoundTrip(sequence, pdu, 12);
  }

  /** The PDU the tool expects back when its own bind PDU is parsed. */
  function Expected(systemId: string, password: string, systemType: string, version: int,
                    commandId: int, addressRange: string, sequence: int): Pdu
    requires 0 <= version < 128
  {
    var body := BindBody(systemId, password, systemType, version, addressRange);
    Pdu(HEADER_LENGTH + |body|, commandId, 0, sequence, Hex(body),
        [systemId, password, systemType, [version as char], "", addressRange])
  }

  lemma WholeBody(pdu: seq<Byte>)
    requires |pdu| >= HEADER_LENGTH
    ensures BodyOf(pdu, |pdu|) == pdu[HEADER_LENGTH..]
  {
  }

  lemma BindParses(systemId: string, password: string, systemType: string, version: int,
                   commandId: int, addressRange: string, sequence: int)
    requires CleanText(systemId) && CleanText(password) && CleanText(systemType) && CleanText(addressRange)
    requires 0 < version < 128
    requires BuildBindPdu(systemId, password, systemType, version, commandId, addressRange, sequence).Some?
    ensures var pdu := BuildBindPdu(systemId, password, systemType, version, commandId, addressRange, sequence).value;
            && |pdu| >= HEADER_LENGTH && ReadWord(pdu, 0) == |pdu|
            && Parse(pdu) == Some(Expected(systemId, password, systemType, version, commandId, addressRange, sequence))
  {
    hide BindBody, BodyStrings, Hex, ReadWord, Word;
    var body := BindBody(systemId, password, systemType, version, addressRange);
    HeaderRead(HEADER_LENGTH + |body|, commandId, sequence, body);
    WholeBody(Header(HEADER_LENGTH + |body|, commandId, 0, sequence) + body);
    BindBodyRead(systemId, password, systemType, version, addressRange);
  }

  /** The handler waits until the whole PDU is there, and then sees exactly it. */
  lemma RespondsWhenWhole(pdu: seq<Byte>, data: seq<Byte>)
    requires |pdu| >= HEADER_LENGTH && ReadWord(pdu, 0) == |pdu|
    requires data <= pdu || pdu <= data
    ensures Respond(data) == if |data| < |pdu| then Waiting
                             else if Parse(pdu).Some? then Handled(Parse(pdu).value) else Threw
  {
    if |data| >= 4 {
      assert forall i :: 0 <= i < 4 ==> data[i] == pdu[i];
      assert ReadWord(data, 0) == ReadWord(pdu, 0);
      if pdu <= data {
        assert data[..|pdu|] == pdu;
      }
    }
  }

  function Flat(chunks: seq<seq<Byte>>): seq<Byte> {
    if chunks == [] then [] else chunks[0] + Flat(chunks[1..])
  }

  lemma {:induction false} FeedWhole(pdu: seq<Byte>, data: seq<Byte>, chunks: seq<seq<Byte>>)
    requires |pdu| >= HEADER_LENGTH && ReadWord(pdu, 0) == |pdu| && Parse(pdu).Some?
    requires |data| < |pdu| && (data + Flat(chunks) <= pdu || pdu <= data + Flat(chunks))
    ensures Feed(data, chunks) == if |data + Flat(chunks)| < |pdu| then Waiting else Handled(Parse(pdu).value)
    decreases |chunks|
  {
    if chunks == [] {
      assert data + Flat(chunks) == data;
    } else {
      var more := data + chunks[0];
      assert data + Flat(chunks) == more + Flat(chunks[1..]);
      RespondsWhenWhole(pdu, more);
      if |more| < |pdu| {
        FeedWhole(pdu, more, chunks[1..]);
      }
    }
  }

  /**
   Round trip: fed in any chunks, with anything after it, the built bind PDU is
   handled once it is complete and not before, with every field as it was given.
   */
  lemma BindRoundTrip(systemId: string, password: string, systemType: string, version: int,
                      commandId: int, addressRange: string, sequence: int, chunks: seq<seq<Byte>>)
    requires CleanText(systemId) && CleanText(password) && CleanText(systemType) && CleanText(addressRange)
    requires 0 < version < 128
    requires BuildBindPdu(systemId, password, systemType, version, commandId, addressRange, sequence).Some?
    requires var pdu := BuildBindPdu(systemId, password, systemType, version, commandId, addressRange, sequence).value;
             Flat(chunks) <= pdu || pdu <= Flat(chunks)
    ensures var pdu := BuildBindPdu(systemId, password, systemType, version, commandId, addressRange, sequence).value;
            Feed([], chunks) ==
            if |Flat(chunks)| < |pdu| then Waiting
            else Handled(Expected(systemId, password, systemType, version, commandId, addressRange, sequence))
  {
    var pdu := BuildBindPdu(systemId, password, systemType, version, commandId, addressRange, sequence).value;
    BindParses(systemId, password, systemType, version, commandId, addressRange, sequence);
    assert [] + Flat(chunks) == Flat(chunks);
    FeedWhole(pdu, [], chunks);
  }
}
