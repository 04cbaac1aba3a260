/**
 * The serialized form of a chat message in the store.
 *
 * The route writes `JSON.stringify({user, message, avatar, timestamp})` and
 * reads entries back with `JSON.parse`. For strings of Unicode scalar values
 * (unpaired UTF-16 surrogates have no `char`), this module writes that text
 * as `JSON.stringify` does for an object of this shape (keys in insertion
 * order, no whitespace, `null` for a missing avatar, `JSON.stringify`'s string
 * escapes) and decodes exactly the texts it writes, so that `Decode` is the
 * inverse of `Encode` in both directions.
 */
module MessageCodec {
  import opened Wrappers

  /** The object the POST handler builds before storing it. */
  datatype Message = Message(user: string, message: string, avatar: Option<string>, timestamp: nat)

  // ---------------------------------------------------------------------------
  // Decimal numbers

  predicate IsDigit(c: char) {
    '0' <= c <= '9'
  }

  predicate AllDigits(s: string) {
    forall i :: 0 <= i < |s| ==> IsDigit(s[i])
  }

  function DigitChar(d: nat): (c: char)
    requires d < 10
    ensures IsDigit(c)
  {
    ('0' as int + d) as char
  }

  function DigitValue(c: char): (d: nat)
    requires IsDigit(c)
    ensures d < 10 && DigitChar(d) == c
  {
    c as int - '0' as int
  }

  /** The decimal text of `n`, as `JSON.stringify` writes a non-negative integer. */
  function ShowNat(n: nat): (s: string)
    ensures |s| >= 1 && AllDigits(s)
    ensures s[0] == '0' <==> n == 0
    ensures n == 0 ==> s == "0"
  {
    if n < 10 then [DigitChar(n)] else ShowNat(n / 10) + [DigitChar(n % 10)]
  }

  /** The value of a string of decimal digits, most significant first. */
  function DigitsValue(s: string): nat
    requires AllDigits(s)
  {
    if s == [] then 0 else DigitsValue(s[..|s| - 1]) * 10 + DigitValue(s[|s| - 1])
  }

  lemma {:induction false} DigitsValueOfShowNat(n: nat)
    ensures DigitsValue(ShowNat(n)) == n
  {
    if n >= 10 {
      var s := ShowNat(n);
      assert s[..|s| - 1] == ShowNat(n / 10);
      DigitsValueOfShowNat(n / 10);
    }
  }

  lemma {:induction false} DigitsValuePositive(s: string)
    requires AllDigits(s) && |s| >= 1 && s[0] != '0'
    ensures DigitsValue(s) >= 1
  {
    if |s| > 1 {
      DigitsValuePositive(s[..|s| - 1]);
    }
  }

  /** A digit string without a leading zero is the text of its value. */
  lemma {:induction false} ShowNatOfDigitsValue(s: string)
    requires AllDigits(s) && |s| >= 1 && (|s| > 1 ==> s[0] != '0')
    ensures ShowNat(DigitsValue(s)) == s
  {
    if |s| > 1 {
      var p := s[..|s| - 1];
      DigitsValuePositive(p);
      ShowNatOfDigitsValue(p);
      var n := DigitsValue(s);
      assert n / 10 == DigitsValue(p) && n % 10 == DigitValue(s[|s| - 1]);
      assert s == p + [s[|s| - 1]];
    }
  }

  /** The length of the longest prefix of `s` made of digits. */
  function DigitRun(s: string): (n: nat)
    ensures n <= |s| && AllDigits(s[..n])
    ensures n < |s| ==> !IsDigit(s[n])
  {
    if s != [] && IsDigit(s[0]) then
      var n := 1 + DigitRun(s[1..]);
      assert s[..n] == [s[0]] + s[1..][..n - 1];
      n
    else 0
  }

  /** A non-negative integer without leading zeros, and what follows it. */
  function ParseNat(s: string): Option<(nat, string)> {
    var n := DigitRun(s);
    if n == 0 || (n > 1 && s[0] == '0') then None
    else Some((DigitsValue(s[..n]), s[n..]))
  }

  lemma ParseNatShowNat(k: nat, rest: string)
    requires rest == [] || !IsDigit(rest[0])
    ensures ParseNat(ShowNat(k) + rest) == Some((k, rest))
  {
    var t := ShowNat(k);
    var s := t + rest;
    var n := DigitRun(s);
    assert forall i :: 0 <= i < |t| ==> s[i] == t[i];
    assert |t| < |s| ==> s[|t|] == rest[0];
    assert n == |t|;
    assert s[..|t|] == t;
    DigitsValueOfShowNat(k);
  }

  lemma ParseNatCanonical(s: string, k: nat, rest: string)
    requires ParseNat(s) == Some((k, rest))
    ensures s == ShowNat(k) + rest
    ensures rest == [] || !IsDigit(rest[0])
  {
    var n := DigitRun(s);
    ShowNatOfDigitsValue(s[..n]);
    assert s == s[..n] + s[n..];
  }

  // ---------------------------------------------------------------------------
  // Strings

  predicate IsLowerHex(c: char) {
    '0' <= c <= '9' || 'a' <= c <= 'f'
  }

  function HexValue(c: char): (d: nat)
    requires IsLowerHex(c)
    ensures d < 16
  {
    if '0' <= c <= '9' then c as int - '0' as int else c as int - 'a' as int + 10
  }

  function HexDigit(d: nat): (c: char)
    requires d < 16
    ensures IsLowerHex(c) && HexValue(c) == d
  {
    if d < 10 then DigitChar(d) else ('a' as int + (d - 10)) as char
  }

  lemma HexDigitOfValue(c: char)
    requires IsLowerHex(c)
    ensures HexDigit(HexValue(c)) == c
  {
  }

  /** Control characters that have a two-character escape, by their code. */
  predicate HasShortEscape(code: int) {
    code == 8 || code == 9 || code == 10 || code == 12 || code == 13
  }

  /**
   * How `JSON.stringify` writes one character inside a string literal:
   * the quote and backslash escaped, `\b \t \n \f \r` in short form, every
   * other control character as `\u00xx` (lower-case hex), the rest as is.
   */
  function EscapeChar(c: char): (e: string)
    ensures 1 <= |e| && e[0] != '"'
  {
    if c == '"' then ['\\', '"']
    else if c == '\\' then ['\\', '\\']
    else if c == '\U{8}' then ['\\', 'b']
    else if c == '\t' then ['\\', 't']
    else if c == '\n' then ['\\', 'n']
    else if c == '\U{C}' then ['\\', 'f']
    else if c == '\r' then ['\\', 'r']
    else if c < ' ' then ['\\', 'u', '0', '0', HexDigit(c as int / 16), HexDigit(c as int % 16)]
    else [c]
  }

  function Escape(s: string): string {
    if s == [] then [] else EscapeChar(s[0]) + Escape(s[1..])
  }

  /** A string literal: the escaped text between two quotes. */
  function Quote(s: string): string {
    ['"'] + Escape(s) + ['"']
  }

  /** Reads one (possibly escaped) character of a string literal's body, and how many characters it took. */
  function ParseChar(s: string): (r: Option<(char, nat)>)
    ensures r.Some? ==> 1 <= r.value.1 <= |s|
  {
    if s == [] || s[0] == '"' then None
    else if s[0] == '\\' then
      if |s| < 2 then None
      else if s[1] == '"' then Some(('"', 2))
      else if s[1] == '\\' then Some(('\\', 2))
      else if s[1] == 'b' then Some(('\U{8}', 2))
      else if s[1] == 't' then Some(('\t', 2))
      else if s[1] == 'n' then Some(('\n', 2))
      else if s[1] == 'f' then Some(('\U{C}', 2))
      else if s[1] == 'r' then Some(('\r', 2))
      else if s[1] == 'u' && |s| >= 6 && s[2] == '0' && s[3] == '0'
              && (s[4] == '0' || s[4] == '1') && IsLowerHex(s[5]) then
        var code := HexValue(s[4]) * 16 + HexValue(s[5]);
        if HasShortEscape(code) then None else Some((code as char, 6))
      else None
    else if s[0] < ' ' then None
    else Some((s[0], 1))
  }

  lemma ParseCharOfEscape(c: char, t: string)
    ensures ParseChar(EscapeChar(c) + t) == Some((c, |EscapeChar(c)|))
  {
    var e := EscapeChar(c);
    var s := e + t;
    assert s[..|e|] == e;
    if c < ' ' && !HasShortEscape(c as int) {
      assert s[4] == HexDigit(c as int / 16) && s[5] == HexDigit(c as int % 16);
      assert HexValue(s[4]) * 16 + HexValue(s[5]) == c as int;
    }
  }

  lemma ParseCharCanonical(s: string, c: char, k: nat)
    requires ParseChar(s) == Some((c, k))
    ensures s[..k] == EscapeChar(c)
  {
    if s[0] == '\\' && s[1] == 'u' {
      var code := HexValue(s[4]) * 16 + HexValue(s[5]);
      assert code / 16 == HexValue(s[4]) && code % 16 == HexValue(s[5]);
      HexDigitOfValue(s[4]);
      HexDigitOfValue(s[5]);
    }
  }

  /** Reads a string literal's body up to its closing quote: the decoded text and what follows the quote. */
  function ParseStringBody(s: string): (r: Option<(string, string)>)
    ensures r.Some? ==> |r.value.1| < |s|
    decreases |s|
  {
    if s == [] then None
    else if s[0] == '"' then Some(([], s[1..]))
    else
      match ParseChar(s)
      case None => None
      case Some((c, k)) =>
        match ParseStringBody(s[k..])
        case None => None
        case Some((t, rest)) => Some(([c] + t, rest))
  }

  lemma {:induction false} ParseStringBodyOfEscape(u: string, rest: string)
    ensures ParseStringBody(Escape(u) + ['"'] + rest) == Some((u, rest))
  {
    if u == [] {
      assert Escape(u) + ['"'] + rest == ['"'] + rest;
    } else {
      var e := EscapeChar(u[0]);
      var tail := Escape(u[1..]) + ['"'] + rest;
      assert Escape(u) + ['"'] + rest == e + tail;
      ParseCharOfEscape(u[0], tail);
      assert (e + tail)[|e|..] == tail;
      ParseStringBodyOfEscape(u[1..], rest);
      assert [u[0]] + u[1..] == u;
    }
  }

  lemma EscapeCons(c: char, v: string)
    ensures Escape([c] + v) == EscapeChar(c) + Escape(v)
  {
    assert ([c] + v)[1..] == v;
  }

  /** One step of a successful `ParseStringBody` that does not stop at the closing quote. */
  lemma ParseStringBodyStep(s: string)
    requires ParseStringBody(s).Some? && s[0] != '"'
    ensures ParseChar(s).Some?
    ensures var k := ParseChar(s).value.1;
      && ParseStringBody(s[k..]).Some?
      && ParseStringBody(s).value.0 == [ParseChar(s).value.0] + ParseStringBody(s[k..]).value.0
      && ParseStringBody(s).value.1 == ParseStringBody(s[k..]).value.1
  {
  }

  lemma {:induction false} ParseStringBodyCanonical(s: string, u: string, rest: string)
    requires ParseStringBody(s) == Some((u, rest))
    ensures s == Escape(u) + (['"'] + rest)
    decreases |s|
  {
    if s[0] == '"' {
      assert u == [] && rest == s[1..];
      assert s == ['"'] + s[1..];
    } else {
      ParseStringBodyStep(s);
      var c, k := ParseChar(s).value.0, ParseChar(s).value.1;
      var v := ParseStringBody(s[k..]).value.0;
      ParseCharCanonical(s, c, k);
      ParseStringBodyCanonical(s[k..], v, rest);
      assert u == [c] + v;
      EscapeCons(c, v);
      Reassemble(s, k, EscapeChar(c), Escape(v), ['"'] + rest);
    }
  }

  /** A text split at `k` is its two halves put back together. */
  lemma Reassemble(s: string, k: nat, e: string, w: string, tail: string)
    requires k <= |s| && s[..k] == e && s[k..] == w + tail
    ensures s == (e + w) + tail
  {
    assert s == s[..k] + s[k..];
  }

  /** `s` with the literal `p` removed from its front, if `s` starts with `p`. */
  function Expect(p: string, s: string): Option<string> {
    if p <= s then Some(s[|p|..]) else None
  }

  lemma ExpectPrefix(p: string, t: string)
    ensures Expect(p, p + t) == Some(t)
  {
    assert p <= p + t;
  }

  lemma ExpectCanonical(p: string, s: string, t: string)
    requires Expect(p, s) == Some(t)
    ensures s == p + t
  {
    assert s == s[..|p|] + s[|p|..];
  }

  function ParseQuoted(s: string): Option<(string, string)> {
    var body :- Expect("\"", s);
    ParseStringBody(body)
  }

  lemma ParseQuotedOfQuote(v: string, rest: string)
    ensures ParseQuoted(Quote(v) + rest) == Some((v, rest))
  {
    assert Quote(v) + rest == "\"" + (Escape(v) + ['"'] + rest);
    ExpectPrefix("\"", Escape(v) + ['"'] + rest);
    ParseStringBodyOfEscape(v, rest);
  }

  lemma ParseQuotedCanonical(s: string, v: string, rest: string)
    requires ParseQuoted(s) == Some((v, rest))
    ensures s == Quote(v) + rest
  {
    var body := Expect("\"", s).value;
    ExpectCanonical("\"", s, body);
    ParseStringBodyCanonical(body, v, rest);
  }

  // ---------------------------------------------------------------------------
  // Messages

  const UserKey := "{\"user\":"
  const MessageKey := ",\"message\":"
  const AvatarKey := ",\"avatar\":"
  const TimestampKey := ",\"timestamp\":"
  const Null := "null"

  function EncodeAvatar(a: Option<string>): string {
    match a
    case None => Null
    case Some(v) => Quote(v)
  }

  function ParseAvatar(s: string): Option<(Option<string>, string)> {
    if Null <= s then Some((None, s[|Null|..]))
    else
      var q :- ParseQuoted(s);
      Some((Some(q.0), q.1))
  }

  lemma ParseAvatarOfEncode(a: Option<string>, rest: string)
    ensures ParseAvatar(EncodeAvatar(a) + rest) == Some((a, rest))
  {
    match a
    case None =>
      assert Null <= Null + rest;
      assert (Null + rest)[|Null|..] == rest;
    case Some(v) =>
      assert (Quote(v) + rest)[0] == '"';
      ParseQuotedOfQuote(v, rest);
  }

  lemma ParseAvatarCanonical(s: string, a: Option<string>, rest: string)
    requires ParseAvatar(s) == Some((a, rest))
    ensures s == EncodeAvatar(a) + rest
  {
    if Null <= s {
      assert s == s[..|Null|] + s[|Null|..];
    } else {
      ParseQuotedCanonical(s, a.value, rest);
    }
  }

  /** `JSON.stringify({user, message, avatar, timestamp})`, one field after the other. */
  function Encode(m: Message): string {
    UserKey + (Quote(m.user) +
    (MessageKey + (Quote(m.message) +
    (AvatarKey + (EncodeAvatar(m.avatar) +
    (TimestampKey + (ShowNat(m.timestamp) + "}")))))))
  }

  /** Reads back a stored entry that is the serialization of a message. */
  function Decode(s: string): Option<Message> {
    var a :- Expect(UserKey, s);
    var user :- ParseQuoted(a);
    var b :- Expect(MessageKey, user.1);
    var message :- ParseQuoted(b);
    var c :- Expect(AvatarKey, message.1);
    var avatar :- ParseAvatar(c);
    var d :- Expect(TimestampKey, avatar.1);
    var timestamp :- ParseNat(d);
    if timestamp.1 == "}" then Some(Message(user.0, message.0, avatar.0, timestamp.0)) else None
  }

  /** The steps of a successful `Decode`, one hypothesis per field. */
  lemma DecodeSteps(s: string, a: string, user: (string, string), b: string, message: (string, string),
                    c: string, avatar: (Option<string>, string), d: string, timestamp: (nat, string))
    requires Expect(UserKey, s) == Some(a) && ParseQuoted(a) == Some(user)
    requires Expect(MessageKey, user.1) == Some(b) && ParseQuoted(b) == Some(message)
    requires Expect(AvatarKey, message.1) == Some(c) && ParseAvatar(c) == Some(avatar)
    requires Expect(TimestampKey, avatar.1) == Some(d) && ParseNat(d) == Some(timestamp)
    requires timestamp.1 == "}"
    ensures Decode(s) == Some(Message(user.0, message.0, avatar.0, timestamp.0))
  {
  }

  /** Decoding an encoded message gives the message back. */
  lemma DecodeEncode(m: Message)
    ensures Decode(Encode(m)) == Some(m)
  {
    var t4 := ShowNat(m.timestamp) + "}";
    var s4 := TimestampKey + t4;
    var t3 := EncodeAvatar(m.avatar) + s4;
    var s3 := AvatarKey + t3;
    var t2 := Quote(m.message) + s3;
    var s2 := MessageKey + t2;
    var s1 := Quote(m.user) + s2;
    ExpectPrefix(UserKey, s1);
    ParseQuotedOfQuote(m.user, s2);
    ExpectPrefix(MessageKey, t2);
    ParseQuotedOfQuote(m.message, s3);
    ExpectPrefix(AvatarKey, t3);
    ParseAvatarOfEncode(m.avatar, s4);
    ExpectPrefix(TimestampKey, t4);
    ParseNatShowNat(m.timestamp, "}");
    DecodeSteps(Encode(m), s1, (m.user, s2), t2, (m.message, s3), t3, (m.avatar, s4), t4, (m.timestamp, "}"));
  }

  /** Only the encoding of a message decodes to that message. */
  lemma DecodeCanonical(s: string, m: Message)
    requires Decode(s) == Some(m)
    ensures s == Encode(m)
  {
    var a := Expect(UserKey, s).value;
    var user := ParseQuoted(a).value;
    var b := Expect(MessageKey, user.1).value;
    var message := ParseQuoted(b).value;
    var c := Expect(AvatarKey, message.1).value;
    var avatar := ParseAvatar(c).value;
    var d := Expect(TimestampKey, avatar.1).value;
    var timestamp := ParseNat(d).value;
    ExpectCanonical(UserKey, s, a);
    ParseQuotedCanonical(a, user.0, user.1);
    ExpectCanonical(MessageKey, user.1, b);
    ParseQuotedCanonical(b, message.0, message.1);
    ExpectCanonical(AvatarKey, message.1, c);
    ParseAvatarCanonical(c, avatar.0, avatar.1);
    ExpectCanonical(TimestampKey, avatar.1, d);
    ParseNatCanonical(d, timestamp.0, timestamp.1);
    assert m == Message(user.0, message.0, avatar.0, timestamp.0);
  }
}
