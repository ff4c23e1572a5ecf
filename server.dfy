/**
 * The in-memory part of source/blackjack/server.cc: the `message` frame
 * (a 4-byte length header in front of a body of at most 512 bytes) and the
 * chat `room` with its bounded history. Sockets and sessions are not
 * modelled; a participant's `deliver` is recorded in its inbox.
 */
module Server {
  import opened Wrappers

  const MaxHeaderLen: nat := 4
  const MaxBodyLen: nat := 512
  /** `room::max_recent_msgs`. */
  const MaxRecentMsgs: nat := 100

  // ---------------------------------------------------------------------
  // Header text: `std::atoi` and `std::sprintf("%4d")`.
  // ---------------------------------------------------------------------

  predicate IsDigit(c: char)
  {
    '0' <= c <= '9'
  }

  /** The characters `atoi` skips before the number (C `isspace`). */
  predicate IsSpace(c: char)
  {
    c == ' ' || c == '\t' || c == '\n' || c == '\r' || c == '\U{0B}' || c == '\U{0C}'
  }

  function SkipSpaces(s: seq<char>): (t: seq<char>)
    ensures |t| <= |s| && t == s[|s| - |t|..]
    ensures t != [] ==> !IsSpace(t[0])
  {
    if s != [] && IsSpace(s[0]) then SkipSpaces(s[1..]) else s
  }

  /** The longest prefix of `s` made of decimal digits. */
  function LeadingDigits(s: seq<char>): (d: seq<char>)
    ensures |d| <= |s| && d == s[..|d|]
    ensures forall i :: 0 <= i < |d| ==> IsDigit(d[i])
    ensures |d| < |s| ==> !IsDigit(s[|d|])
  {
    if s != [] && IsDigit(s[0]) then [s[0]] + LeadingDigits(s[1..]) else []
  }

  /** The number a string of decimal digits denotes. */
  function DigitsValue(d: seq<char>): nat
    requires forall i :: 0 <= i < |d| ==> IsDigit(d[i])
  {
    if d == [] then 0 else DigitsValue(d[..|d| - 1]) * 10 + DigitValue(d[|d| - 1])
  }

  function DigitValue(c: char): nat
    requires IsDigit(c)
  {
    c as int - '0' as int
  }

  /** `std::atoi`: leading white space, an optional sign, then as many digits as there are. */
  function Atoi(s: seq<char>): int
  {
    var t := SkipSpaces(s);
    if t != [] && t[0] == '-' then -(DigitsValue(LeadingDigits(t[1..])) as int)
    else if t != [] && t[0] == '+' then DigitsValue(LeadingDigits(t[1..]))
    else DigitsValue(LeadingDigits(t))
  }

  /** The decimal digits of n, most significant first, without leading zeros. */
  function Decimal(n: nat): (d: seq<char>)
    ensures |d| >= 1 && IsDigit(d[0])
    ensures forall i :: 0 <= i < |d| ==> IsDigit(d[i])
    ensures n < 10 <==> |d| == 1
    decreases n
  {
    if n < 10 then [('0' as int + n) as char] else Decimal(n / 10) + [('0' as int + n % 10) as char]
  }

  /** `%4d` for a non-negative n of at most four digits: right-aligned, padded with spaces. */
  function FormatHeader(n: nat): (h: seq<char>)
    requires n < 10000
    ensures |h| == MaxHeaderLen
  {
    DecimalLength(n);
    var d := Decimal(n);
    seq(4 - |d|, _ => ' ') + d
  }

  /**
   * The body length a header announces, as `decode_header` means to read
   * it: the value `atoi` gives, when it is a valid body length. A negative
   * value, stored in the unsigned `body_len`, wraps to a huge one and is
   * rejected with the rest.
   */
  function DecodedLength(header: seq<char>): (r: Option<nat>)
    ensures r.Some? ==> r.value <= MaxBodyLen
    ensures r.Some? <==> 0 <= Atoi(header) <= MaxBodyLen
  {
    var n := Atoi(header);
    if n < 0 || n > MaxBodyLen then None else Some(n)
  }

  /** The header `encode_header` writes as written: the body length is never formatted. */
  function EncodedHeaderAsWritten(bodyLen: nat): (h: seq<char>)
    ensures |h| == MaxHeaderLen && forall i :: 0 <= i < |h| ==> h[i] == '\0'
  {
    ['\0', '\0', '\0', '\0']
  }

  /** The header `decode_header` reads as written: the copy from the data is commented out. */
  function HeaderReadAsWritten(data: seq<char>): (h: seq<char>)
    ensures h == []
  {
    []
  }

  // ---------------------------------------------------------------------
  // Properties of the header text.
  // ---------------------------------------------------------------------

  lemma {:induction false} DecimalLength(n: nat)
    ensures n < 10000 ==> |Decimal(n)| <= 4
    ensures n < 1000 ==> |Decimal(n)| <= 3
    ensures n < 100 ==> |Decimal(n)| <= 2
    decreases n
  {
    if n >= 10 {
      DecimalLength(n / 10);
    }
  }

  lemma {:induction false} DecimalValue(n: nat)
    ensures DigitsValue(Decimal(n)) == n
    decreases n
  {
    var d := Decimal(n);
    if n >= 10 {
      assert d[..|d| - 1] == Decimal(n / 10);
      DecimalValue(n / 10);
    } else {
      assert d[..0] == [];
    }
  }

  lemma {:induction false} LeadingDigitsAll(d: seq<char>)
    requires forall i :: 0 <= i < |d| ==> IsDigit(d[i])
    ensures LeadingDigits(d) == d
    decreases |d|
  {
    if d != [] {
      LeadingDigitsAll(d[1..]);
    }
  }

  lemma {:induction false} SkipPadding(k: nat, d: seq<char>)
    requires d != [] && !IsSpace(d[0])
    ensures SkipSpaces(seq(k, _ => ' ') + d) == d
    decreases k
  {
    if k > 0 {
      assert (seq(k, _ => ' ') + d)[1..] == seq(k - 1, _ => ' ') + d;
      SkipPadding(k - 1, d);
    } else {
      assert seq(k, _ => ' ') + d == d;
    }
  }

  /** `atoi` reads back every length `%4d` writes. */
  lemma HeaderRoundTrip(n: nat)
    requires n < 10000
    ensures Atoi(FormatHeader(n)) == n
  {
    FormatHeaderSkips(n);
    AtoiReadsDigits(FormatHeader(n), Decimal(n));
    DecimalValue(n);
  }

  /** Skipping the padding of `%4d` leaves the digits. */
  lemma FormatHeaderSkips(n: nat)
    requires n < 10000
    ensures SkipSpaces(FormatHeader(n)) == Decimal(n)
  {
    DecimalLength(n);
    SkipPadding(4 - |Decimal(n)|, Decimal(n));
  }

  /** `atoi` of a text whose white-space skip leaves only digits is the value of those digits. */
  lemma AtoiReadsDigits(s: seq<char>, d: seq<char>)
    requires d != [] && forall i :: 0 <= i < |d| ==> IsDigit(d[i])
    requires SkipSpaces(s) == d
    ensures Atoi(s) == DigitsValue(d)
  {
    assert d[0] != '-' && d[0] != '+';
    LeadingDigitsAll(d);
  }

  /** Every valid body length survives encoding and decoding. */
  lemma DecodeEncodedLength(n: nat)
    requires n <= MaxBodyLen
    ensures DecodedLength(FormatHeader(n)) == Some(n)
  {
    HeaderRoundTrip(n);
  }

  /** As written, a message of body length 5 encodes and decodes to length 0. */
  lemma AsWrittenLosesLength()
    ensures Atoi(HeaderReadAsWritten(EncodedHeaderAsWritten(5) + seq(MaxBodyLen, _ => 'x'))) == 0
    ensures Atoi(EncodedHeaderAsWritten(5)) == 0
  {
    assert SkipSpaces(EncodedHeaderAsWritten(5)) == EncodedHeaderAsWritten(5);
  }

  // ---------------------------------------------------------------------
  // `message`.
  // ---------------------------------------------------------------------

  /** A copy of a message, as the room's queue and a participant keep it. */
  datatype Frame = Frame(data: seq<char>, bodyLen: nat)

  class Message {
    /** The header bytes followed by the body bytes. */
    const data: array<char>
    var bodyLen: nat

    /** `message()`: an empty body. */
    constructor()
      ensures bodyLen == 0 && data.Length == MaxHeaderLen + MaxBodyLen && fresh(data)
    {
      bodyLen := 0;
      data := new char[MaxHeaderLen + MaxBodyLen];
    }

    ghost predicate Valid()
      reads this
    {
      data.Length == MaxHeaderLen + MaxBodyLen
    }

    /** `get_body()`: the bytes after the header. */
    function GetBody(): (b: seq<char>)
      requires Valid()
      reads this, data
      ensures |b| == MaxBodyLen && b == data[MaxHeaderLen..]
    {
      data[MaxHeaderLen..]
    }

    /** `get_len()`: the length of the frame on the wire. */
    function GetLen(): (n: nat)
      reads this
      ensures n == MaxHeaderLen + bodyLen
    {
      MaxHeaderLen + bodyLen
    }

    /** `get_body_len()`. */
    function GetBodyLen(): nat
      reads this
    {
      bodyLen
    }

    /** `set_body_len(len)`: unchecked. */
    method SetBodyLen(len: nat)
      modifies this
      ensures bodyLen == len && GetLen() == MaxHeaderLen + len
    {
      bodyLen := len;
    }

    /** The message as a value. */
    function Snapshot(): Frame
      reads this, data
    {
      Frame(data[..], bodyLen)
    }

    /**
     * `decode_header()` as written: the header buffer stays empty, so
     * `atoi` yields 0 and the body length becomes 0 whatever the data says.
     */
    method DecodeHeader() returns (ok: bool)
      modifies this
      ensures ok && bodyLen == 0
    {
      var header := HeaderReadAsWritten(data[..]);
      ok := SetDecodedLength(Atoi(header));
    }

    /** The check shared by both versions of `decode_header()`: keep n if it is a valid body length. */
    method SetDecodedLength(n: int) returns (ok: bool)
      modifies this
      ensures ok <==> 0 <= n <= MaxBodyLen
      ensures bodyLen == if ok then n else 0
    {
      if n < 0 || n > MaxBodyLen {
        bodyLen := 0;
        return false;
      }
      bodyLen := n;
      return true;
    }

    /** `encode_header()` as written: four zero bytes over the header, the body untouched. */
    method EncodeHeader()
      requires Valid()
      modifies data
      ensures data[..MaxHeaderLen] == EncodedHeaderAsWritten(bodyLen)
      ensures data[MaxHeaderLen..] == old(data[MaxHeaderLen..])
    {
      var header := EncodedHeaderAsWritten(bodyLen);
      var i := 0;
      while i < MaxHeaderLen
        invariant 0 <= i <= MaxHeaderLen
        invariant data[..i] == header[..i]
        invariant data[MaxHeaderLen..] == old(data[MaxHeaderLen..])
      {
        data[i] := header[i];
        i := i + 1;
      }
    }

    /**
     * `decode_header()` with the header copy in place: the body length is
     * what the first four bytes announce, or 0 with a false result when that
     * is not a valid body length.
     */
    method DecodeHeaderFixed() returns (ok: bool)
      requires Valid()
      modifies this
      ensures ok <==> DecodedLength(data[..MaxHeaderLen]).Some?
      ensures bodyLen == if ok then DecodedLength(data[..MaxHeaderLen]).value else 0
      ensures bodyLen <= MaxBodyLen
    {
      var header := data[..MaxHeaderLen];
      ok := SetDecodedLength(Atoi(header));
    }

    /** `encode_header()` with the formatting in place: `%4d` of the body length. */
    method EncodeHeaderFixed()
      requires Valid() && bodyLen <= MaxBodyLen
      modifies data
      ensures data[..MaxHeaderLen] == FormatHeader(bodyLen)
      ensures data[MaxHeaderLen..] == old(data[MaxHeaderLen..])
    {
      var header := FormatHeader(bodyLen);
      var i := 0;
      while i < MaxHeaderLen
        invariant 0 <= i <= MaxHeaderLen
        invariant data[..i] == header[..i]
        invariant data[MaxHeaderLen..] == old(data[MaxHeaderLen..])
      {
        data[i] := header[i];
        i := i + 1;
      }
    }
  }

  // ---------------------------------------------------------------------
  // `participant` and `room`.
  // ---------------------------------------------------------------------

  /** The last k elements of s, or all of s when it is shorter. */
  function Last<T>(s: seq<T>, k: nat): (r: seq<T>)
    ensures |r| == if |s| <= k then |s| else k
  {
    if |s| <= k then s else s[|s| - k..]
  }

  /** A member of a room; `deliver` hands it a copy of a message. */
  class Participant {
    var inbox: seq<Frame>

    constructor()
      ensures inbox == []
    {
      inbox := [];
    }

    method Deliver(msg: Frame)
      modifies this
      ensures inbox == old(inbox) + [msg]
    {
      inbox := inbox + [msg];
    }
  }

  class Room {
    var group: set<Participant>
    var recent: seq<Frame>
    /** Every message ever delivered to the room, oldest first. */
    ghost var delivered: seq<Frame>

    /** The history is the last 100 messages delivered. */
    ghost predicate Valid()
      reads this
    {
      recent == Last(delivered, MaxRecentMsgs)
    }

    constructor()
      ensures group == {} && recent == [] && delivered == [] && Valid()
    {
      group := {};
      recent := [];
      delivered := [];
    }

    /** `join(p)`: p becomes a member and receives the whole history, oldest first. */
    method Join(p: Participant)
      modifies this, p
      ensures group == old(group) + {p} && recent == old(recent) && delivered == old(delivered)
      ensures p.inbox == old(p.inbox) + recent
    {
      group := group + {p};
      var i := 0;
      while i < |recent|
        invariant 0 <= i <= |recent|
        invariant group == old(group) + {p} && recent == old(recent) && delivered == old(delivered)
        invariant p.inbox == old(p.inbox) + recent[..i]
      {
        p.Deliver(recent[i]);
        assert recent[..i + 1] == recent[..i] + [recent[i]];
        i := i + 1;
      }
      assert recent[..i] == recent;
    }

    /** `leave(p)`: removes p, if it is a member. */
    method Leave(p: Participant)
      modifies this
      ensures group == old(group) - {p} && recent == old(recent) && delivered == old(delivered)
    {
      group := group - {p};
    }

    /**
     * `deliver(msg)`: the message joins the history, which then keeps only
     * its last 100 entries, and every member receives it once.
     */
    method Deliver(msg: Frame)
      requires Valid()
      modifies this, group
      ensures Valid() && delivered == old(delivered) + [msg]
      ensures recent == Last(old(recent) + [msg], MaxRecentMsgs)
      ensures group == old(group)
      ensures forall p :: p in group ==> p.inbox == old(p.inbox) + [msg]
    {
      Record(msg);
      Broadcast(msg);
    }

    /** The history half of `deliver(msg)`: append, then drop from the front while over 100. */
    method Record(msg: Frame)
      requires Valid()
      modifies this
      ensures Valid() && delivered == old(delivered) + [msg]
      ensures recent == Last(old(recent) + [msg], MaxRecentMsgs)
      ensures group == old(group)
    {
      recent := recent + [msg];
      delivered := delivered + [msg];
      ghost var full := recent;
      while |recent| > MaxRecentMsgs
        invariant |recent| <= |full| && recent == full[|full| - |recent|..]
        invariant |full| > MaxRecentMsgs ==> |recent| >= MaxRecentMsgs
        invariant |full| <= MaxRecentMsgs ==> recent == full
        invariant group == old(group) && delivered == old(delivered) + [msg]
        decreases |recent|
      {
        recent := recent[1..];
      }
      assert recent == Last(full, MaxRecentMsgs);
      LastOfLast(old(delivered), msg, MaxRecentMsgs);
    }

    /** The broadcast half of `deliver(msg)`: each member receives the message once. */
    method Broadcast(msg: Frame)
      modifies group
      ensures forall p :: p in group ==> p.inbox == old(p.inbox) + [msg]
    {
      var rest := group;
      ghost var done: set<Participant> := {};
      while rest != {}
        invariant done !! rest && done + rest == group
        invariant forall p :: p in group ==> p.inbox == if p in done then old(p.inbox) + [msg] else old(p.inbox)
        decreases |rest|
      {
        var p :| p in rest;
        p.Deliver(msg);
        rest := rest - {p};
        done := done + {p};
      }
    }
  }

  /** Trimming before or after an append keeps the same last k elements. */
  lemma LastOfLast<T>(s: seq<T>, x: T, k: nat)
    requires k > 0
    ensures Last(Last(s, k) + [x], k) == Last(s + [x], k)
  {
    if |s| > k {
      var t := s[|s| - k..];
      assert (t + [x])[1..] == (s + [x])[|s| + 1 - k..];
    }
  }

  /** After messages m1..mn are delivered to a fresh room, its history is the last min(n, 100) of them, newest last. */
  lemma {:induction false} HistoryOfDeliveries(ms: seq<Frame>)
    ensures Trimmed(ms) == Last(ms, MaxRecentMsgs)
    decreases |ms|
  {
    if ms != [] {
      var init := ms[..|ms| - 1];
      HistoryOfDeliveries(init);
      LastOfLast(init, ms[|ms| - 1], MaxRecentMsgs);
      assert init + [ms[|ms| - 1]] == ms;
    }
  }

  /** The history a room holds after delivering each of `ms` in turn, one `deliver` at a time. */
  function Trimmed(ms: seq<Frame>): seq<Frame>
  {
    if ms == [] then [] else Last(Trimmed(ms[..|ms| - 1]) + [ms[|ms| - 1]], MaxRecentMsgs)
  }
}
