/** The signed voter cookie: "<raw>.<hex of the MAC over poll, a zero byte, raw>". The MAC is
    any function to 32 bytes; what is at stake here is the printing, the parsing, and the
    fixed message buffer. Strings are byte strings. */
module Signature {
  import opened Basics

  type Byte = b: int | 0 <= b < 256

  type Bytes = seq<Byte>

  const MSG_SIZE := 128
  const MAC_SIZE := 32
  const DOT: Byte := 46

  ghost predicate IsMac(mac: Bytes -> Bytes) {
    forall m :: |mac(m)| == MAC_SIZE
  }

  function Take(s: Bytes, n: int): (r: Bytes)
    requires n >= 0
    ensures |r| == if |s| < n then |s| else n
  {
    if |s| < n then s else s[..n]
  }

  // The bytes that get signed. A poll id of 128 bytes or more overruns the buffer: a panic.
  function Message(poll: Bytes, raw: Bytes): Option<Bytes> {
    if |poll| >= MSG_SIZE then None
    else Some(poll + [0] + Take(raw, MSG_SIZE - 1 - |poll|))
  }

  // ---- Hex ----

  function HexDigit(n: int): Byte
    requires 0 <= n < 16
  {
    if n < 10 then 48 + n else 87 + n
  }

  function FromHexDigit(c: Byte): Option<int> {
    if 48 <= c <= 57 then Some(c - 48)
    else if 97 <= c <= 102 then Some(c - 87)
    else if 65 <= c <= 70 then Some(c - 55)
    else None
  }

  function Encode(bs: Bytes): (r: Bytes)
    ensures |r| == 2 * |bs|
  {
    if bs == [] then [] else [HexDigit(bs[0] / 16), HexDigit(bs[0] % 16)] + Encode(bs[1..])
  }

  function Decode(cs: Bytes): (r: Option<Bytes>)
    requires |cs| % 2 == 0
    ensures r.Some? ==> 2 * |r.value| == |cs|
  {
    if cs == [] then Some([])
    else
      var (hi, lo, rest) := (FromHexDigit(cs[0]), FromHexDigit(cs[1]), Decode(cs[2..]));
      if hi.None? || lo.None? || rest.None? then None
      else
        var b: Byte := hi.value * 16 + lo.value;
        Some([b] + rest.value)
  }

  function LowerByte(c: Byte): Byte {
    if 65 <= c <= 70 then c + 32 else c
  }

  // A hex string with its letters in lower case.
  function Lower(cs: Bytes): (r: Bytes)
    ensures |r| == |cs|
  {
    if cs == [] then [] else [LowerByte(cs[0])] + Lower(cs[1..])
  }

  lemma {:induction false} DecodeEncode(bs: Bytes)
    ensures Decode(Encode(bs)) == Some(bs)
    ensures DOT !in Encode(bs)
  {
    if bs == [] {
    } else {
      DecodeEncode(bs[1..]);
      assert Encode(bs)[2..] == Encode(bs[1..]);
      assert [bs[0]] + bs[1..] == bs;
    }
  }

  lemma DigitPair(hi: Byte, lo: Byte, b: Byte)
    ensures FromHexDigit(hi).Some? && FromHexDigit(lo).Some?
            && FromHexDigit(hi).value * 16 + FromHexDigit(lo).value == b
       <==> LowerByte(hi) == HexDigit(b / 16) && LowerByte(lo) == HexDigit(b % 16)
  {
  }

  /** A hex string decodes to given bytes exactly when, in lower case, it is their encoding. */
  lemma {:induction false} DecodesTo(cs: Bytes, bs: Bytes)
    requires |cs| == 2 * |bs|
    ensures Decode(cs) == Some(bs) <==> Lower(cs) == Encode(bs)
  {
    if cs == [] {
    } else {
      DecodesTo(cs[2..], bs[1..]);
      DigitPair(cs[0], cs[1], bs[0]);
      assert cs[1..][1..] == cs[2..];
      assert Lower(cs) == [LowerByte(cs[0]), LowerByte(cs[1])] + Lower(cs[2..]);
      assert Lower(cs)[2..] == Lower(cs[2..]);
      assert Encode(bs)[2..] == Encode(bs[1..]);
      assert Lower(cs)[0] == LowerByte(cs[0]) && Lower(cs)[1] == LowerByte(cs[1]);
      assert bs == [bs[0]] + bs[1..];
    }
  }

  lemma {:induction false} LowerKeepsDots(cs: Bytes)
    ensures DOT in Lower(cs) <==> DOT in cs
  {
    if cs == [] {
    } else {
      LowerKeepsDots(cs[1..]);
      assert cs == [cs[0]] + cs[1..];
    }
  }

  lemma {:induction false} EncodeIsLower(bs: Bytes)
    ensures Lower(Encode(bs)) == Encode(bs)
  {
    if bs == [] {
    } else {
      EncodeIsLower(bs[1..]);
      var cs := Encode(bs);
      assert cs[1..][1..] == Encode(bs[1..]);
    }
  }

  // ---- Signing and verifying ----

  // None: the buffer overrun panics.
  function Sign(mac: Bytes -> Bytes, poll: Bytes, raw: Bytes): Option<Bytes> {
    var m := Message(poll, raw);
    if m.None? then None else Some(raw + [DOT] + Encode(mac(m.value)))
  }

  function LastDot(s: Bytes): (i: int)
    ensures -1 <= i < |s|
    ensures i >= 0 ==> s[i] == DOT
    ensures forall k :: i < k < |s| ==> s[k] != DOT
  {
    if s == [] then -1 else if s[|s| - 1] == DOT then |s| - 1 else LastDot(s[..|s| - 1])
  }

  datatype Verdict = Panic | Rejected | Accepted(raw: Bytes)

  function Verify(mac: Bytes -> Bytes, poll: Bytes, cookie: Bytes): Verdict {
    var i := LastDot(cookie);
    if i <= 0 || i == |cookie| - 1 then Rejected
    else
      var (raw, got) := (cookie[..i], cookie[i + 1..]);
      if |got| != 2 * MAC_SIZE then Rejected
      else
        var bin := Decode(got);
        if bin.None? then Rejected
        else
          var m := Message(poll, raw);
          if m.None? then Panic
          else if mac(m.value) == bin.value then Accepted(raw)
          else Rejected
  }

  // Signed up to the case of the hex letters.
  ghost predicate IsSignature(mac: Bytes -> Bytes, poll: Bytes, cookie: Bytes, raw: Bytes) {
    && Sign(mac, poll, raw).Some?
    && |cookie| == |raw| + 1 + 2 * MAC_SIZE
    && cookie[..|raw| + 1] + Lower(cookie[|raw| + 1..]) == Sign(mac, poll, raw).value
  }

  lemma SplitSignature(cookie: Bytes, raw: Bytes, hex: Bytes)
    requires |cookie| == |raw| + 1 + |hex|
    ensures cookie[..|raw| + 1] + Lower(cookie[|raw| + 1..]) == raw + [DOT] + hex
       <==> cookie[..|raw|] == raw && cookie[|raw|] == DOT && Lower(cookie[|raw| + 1..]) == hex
  {
    var head, tail := cookie[..|raw| + 1], Lower(cookie[|raw| + 1..]);
    assert head == cookie[..|raw|] + [cookie[|raw|]];
    if head + tail == raw + [DOT] + hex {
      assert (head + tail)[..|head|] == head && (raw + [DOT] + hex)[..|head|] == raw + [DOT];
      assert (head + tail)[|head|..] == tail && (raw + [DOT] + hex)[|head|..] == hex;
      assert head[..|raw|] == raw && head[|raw|] == DOT;
    }
  }

  lemma AcceptedIsSigned(mac: Bytes -> Bytes, poll: Bytes, cookie: Bytes, raw: Bytes)
    requires IsMac(mac) && Verify(mac, poll, cookie) == Accepted(raw)
    ensures raw != [] && IsSignature(mac, poll, cookie, raw)
  {
    hide Decode, Encode, Lower;
    var i := LastDot(cookie);
    var m := Message(poll, raw).value;
    DecodesTo(cookie[i + 1..], mac(m));
    SplitSignature(cookie, raw, Encode(mac(m)));
  }

  lemma SignedIsAccepted(mac: Bytes -> Bytes, poll: Bytes, cookie: Bytes, raw: Bytes)
    requires IsMac(mac) && raw != [] && IsSignature(mac, poll, cookie, raw)
    ensures Verify(mac, poll, cookie) == Accepted(raw)
  {
    hide Decode, Encode, Lower;
    var m := Message(poll, raw).value;
    var got := cookie[|raw| + 1..];
    SplitSignature(cookie, raw, Encode(mac(m)));
    DecodesTo(got, mac(m));
    DecodeEncode(mac(m));
    LowerKeepsDots(got);
    assert forall k :: |raw| < k < |cookie| ==> cookie[k] == got[k - |raw| - 1];
    assert LastDot(cookie) == |raw|;
  }

  /** Verify accepts a cookie for a value exactly when the value is not empty and the cookie is
      what Sign returns for it, up to the case of the hex letters. The value may hold dots. */
  lemma VerifyAcceptsExactlySignatures(mac: Bytes -> Bytes, poll: Bytes, cookie: Bytes, raw: Bytes)
    requires IsMac(mac)
    ensures Verify(mac, poll, cookie) == Accepted(raw) <==> raw != [] && IsSignature(mac, poll, cookie, raw)
  {
    if Verify(mac, poll, cookie) == Accepted(raw) {
      AcceptedIsSigned(mac, poll, cookie, raw);
    }
    if raw != [] && IsSignature(mac, poll, cookie, raw) {
      SignedIsAccepted(mac, poll, cookie, raw);
    }
  }

  // The part of a value that fits the 128-byte buffer behind the poll id and the zero byte.
  function Fitting(poll: Bytes, raw: Bytes): Bytes
    requires |poll| < 128
  {
    if |raw| <= 127 - |poll| then raw else raw[..127 - |poll|]
  }

  lemma MessageInFull(poll: Bytes, raw: Bytes)
    requires |poll| < 128
    ensures Message(poll, raw) == Some(poll + [0] + Fitting(poll, raw))
  {
    assert Take(raw, 127 - |poll|) == Fitting(poll, raw);
  }

  /** Verify in full: it accepts exactly the cookies that are a non-empty value, a dot, and 64
      hex digits of the MAC over this poll's id, a zero byte and the fitting part of the value. */
  lemma AcceptedCookies(mac: Bytes -> Bytes, poll: Bytes, cookie: Bytes, raw: Bytes)
    requires IsMac(mac)
    ensures Verify(mac, poll, cookie) == Accepted(raw) <==>
              && raw != [] && |poll| < 128
              && |cookie| == |raw| + 65
              && cookie[..|raw|] == raw && cookie[|raw|] == '.' as int
              && Decode(cookie[|raw| + 1..]) == Some(mac(poll + [0] + Fitting(poll, raw)))
  {
    hide Decode, Encode, Lower, Verify;
    VerifyAcceptsExactlySignatures(mac, poll, cookie, raw);
    if |poll| < 128 && |cookie| == |raw| + 65 {
      var signed := mac(poll + [0] + Fitting(poll, raw));
      MessageInFull(poll, raw);
      SplitSignature(cookie, raw, Encode(signed));
      DecodesTo(cookie[|raw| + 1..], signed);
    }
  }

  /** A cookie belongs to one poll: if two polls, with ids that hold no zero byte, accept the same
      cookie, it is for the same value and two different messages have the same MAC. */
  lemma TwoPollsCollide(mac: Bytes -> Bytes, p: Bytes, q: Bytes, cookie: Bytes, raw: Bytes, raw': Bytes)
    requires IsMac(mac) && p != q && 0 !in p && 0 !in q
    requires Verify(mac, p, cookie) == Accepted(raw) && Verify(mac, q, cookie) == Accepted(raw')
    ensures raw == raw' && |p| < 128 && |q| < 128
    ensures var (m, m') := (p + [0] + Fitting(p, raw), q + [0] + Fitting(q, raw)); m != m' && mac(m) == mac(m')
  {
    hide Verify;
    AcceptedCookies(mac, p, cookie, raw);
    AcceptedCookies(mac, q, cookie, raw');
    MessageInFull(p, raw);
    MessageInFull(q, raw);
    MessagesAgree(p, raw, q, raw);
  }

  /** What is printed: the value, a dot, and the MAC over poll id, zero byte and fitting part. */
  lemma SignedCookies(mac: Bytes -> Bytes, poll: Bytes, raw: Bytes)
    ensures |poll| < 128 ==>
              Sign(mac, poll, raw) == Some(raw + ['.' as int] + Encode(mac(poll + [0] + Fitting(poll, raw))))
    ensures |poll| >= 128 ==> Sign(mac, poll, raw) == None
  {
    if |poll| < 128 {
      MessageInFull(poll, raw);
    }
  }

  const DIGITS := "0123456789abcdef"

  /** Hex is big-endian by nibble, in lower case. */
  lemma {:induction false} HexDigits(bs: Bytes, i: nat)
    requires i < |bs|
    ensures Encode(bs)[2 * i] as char == DIGITS[bs[i] / 16] && Encode(bs)[2 * i + 1] as char == DIGITS[bs[i] % 16]
  {
    if i == 0 {
    } else {
      HexDigits(bs[1..], i - 1);
    }
  }

  /** Only a poll id that overruns the buffer panics, and only for a cookie that is well formed. */
  lemma VerifyPanics(mac: Bytes -> Bytes, poll: Bytes, cookie: Bytes)
    ensures Verify(mac, poll, cookie) == Panic <==>
              && |poll| >= 128 && |cookie| > 65 && cookie[|cookie| - 65] == '.' as int
              && '.' as int !in cookie[|cookie| - 64..] && Decode(cookie[|cookie| - 64..]).Some?
  {
    hide Decode;
    var i := LastDot(cookie);
    if |cookie| > 65 {
      var got := cookie[|cookie| - 64..];
      assert forall k :: |cookie| - 64 <= k < |cookie| ==> cookie[k] == got[k - |cookie| + 64];
    }
  }

  /** Round trip: a signed value is accepted and recovered exactly when it is not empty. */
  lemma SignThenVerify(mac: Bytes -> Bytes, poll: Bytes, raw: Bytes)
    requires IsMac(mac) && |poll| < MSG_SIZE
    ensures Verify(mac, poll, Sign(mac, poll, raw).value) == Accepted(raw) <==> raw != []
  {
    var cookie := Sign(mac, poll, raw).value;
    var hex := Encode(mac(Message(poll, raw).value));
    EncodeIsLower(mac(Message(poll, raw).value));
    assert cookie[..|raw| + 1] == raw + [DOT] && cookie[|raw| + 1..] == hex;
    VerifyAcceptsExactlySignatures(mac, poll, cookie, raw);
  }

  /** What is signed tells poll and value apart as far as the buffer reaches: for poll ids
      without a zero byte, two messages agree exactly when the polls do and the values do on
      the bytes that fit. */
  lemma MessagesAgree(poll: Bytes, raw: Bytes, poll': Bytes, raw': Bytes)
    requires |poll| < MSG_SIZE && |poll'| < MSG_SIZE && 0 !in poll && 0 !in poll'
    ensures Message(poll, raw) == Message(poll', raw')
       <==> poll == poll' && Take(raw, MSG_SIZE - 1 - |poll|) == Take(raw', MSG_SIZE - 1 - |poll|)
  {
    var (m, m') := (Message(poll, raw).value, Message(poll', raw').value);
    if m == m' {
      assert m[|poll|] == 0 && m'[|poll'|] == 0;
      assert m[..|poll|] == poll && m'[..|poll'|] == poll';
      assert |poll| == |poll'|;
      assert m[|poll| + 1..] == Take(raw, MSG_SIZE - 1 - |poll|);
      assert m'[|poll| + 1..] == Take(raw', MSG_SIZE - 1 - |poll|);
    }
  }

  /** So the signed message is injective on values that fit. */
  lemma MessageIsInjective(poll: Bytes, raw: Bytes, poll': Bytes, raw': Bytes)
    requires 0 !in poll && 0 !in poll'
    requires |poll| + 1 + |raw| <= MSG_SIZE && |poll'| + 1 + |raw'| <= MSG_SIZE
    requires Message(poll, raw) == Message(poll', raw')
    ensures poll == poll' && raw == raw'
  {
    MessagesAgree(poll, raw, poll', raw');
  }

  // ---- The buffers ----

  // The built-in copy: as much as fits.
  method CopyInto(dst: array<Byte>, at: nat, src: Bytes) returns (n: nat)
    requires at <= dst.Length
    modifies dst
    ensures n == (if |src| < dst.Length - at then |src| else dst.Length - at)
    ensures dst[..at] == old(dst[..at]) && dst[at..at + n] == src[..n]
  {
    n := 0;
    while n < |src| && at + n < dst.Length
      invariant n <= |src| && at + n <= dst.Length
      invariant dst[..at] == old(dst[..at]) && dst[at..at + n] == src[..n]
    {
      dst[at + n] := src[n];
      assert dst[at..at + n + 1] == dst[at..at + n] + [src[n]];
      n := n + 1;
    }
  }

  /** Assembles the message in a fixed buffer, then hashes what was written. */
  method SignInto(mac: Bytes -> Bytes, poll: Bytes, raw: Bytes) returns (sum: Option<Bytes>)
    ensures sum == if Message(poll, raw).None? then None else Some(mac(Message(poll, raw).value))
  {
    var msg := new Byte[MSG_SIZE](_ => 0);
    var n := CopyInto(msg, 0, poll);
    if n >= msg.Length {
      return None;
    }
    assert msg[..n] == msg[0..n] == poll;
    msg[n] := 0;
    n := n + 1;
    assert msg[..n] == poll + [0];
    var more := CopyInto(msg, n, raw);
    assert msg[..n + more] == msg[..n] + msg[n..n + more];
    n := n + more;
    assert raw[..more] == Take(raw, MSG_SIZE - 1 - |poll|);
    return Some(mac(msg[..n]));
  }

  method SignCookie(mac: Bytes -> Bytes, poll: Bytes, raw: Bytes) returns (cookie: Option<Bytes>)
    ensures cookie == Sign(mac, poll, raw)
  {
    var sum := SignInto(mac, poll, raw);
    if sum.None? {
      return None;
    }
    var out: Bytes := [];
    out := out + raw;
    assert out == raw;
    out := out + [DOT];
    out := out + Encode(sum.value);
    return Some(out);
  }

  method VerifyCookie(mac: Bytes -> Bytes, poll: Bytes, cookie: Bytes) returns (v: Verdict)
    ensures v == Verify(mac, poll, cookie)
  {
    var i := LastDot(cookie);
    if i <= 0 || i == |cookie| - 1 {
      return Rejected;
    }
    var raw, got := cookie[..i], cookie[i + 1..];
    if |got| != 2 * MAC_SIZE {
      return Rejected;
    }
    var bin := Decode(got);
    if bin.None? {
      return Rejected;
    }
    var sum := SignInto(mac, poll, raw);
    if sum.None? {
      return Panic;
    }
    return if sum.value == bin.value then Accepted(raw) else Rejected;
  }
}
