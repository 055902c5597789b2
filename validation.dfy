/** The zod request schemas of server/utils/validation.js as predicates, with
    the two pieces of JavaScript and MongoDB semantics they rest on: string
    length counted in UTF-16 code units, and the 24-hex-digit text form of an
    ObjectId together with its conversion to and from the id itself. */
module Validation {

  /** Number of UTF-16 code units in `s`, which is what JavaScript's `length`
      (and so zod's `min`/`max` on strings) counts: characters outside the
      Basic Multilingual Plane take two. */
  function Utf16Length(s: string): (n: nat)
    ensures |s| <= n <= 2 * |s|
  {
    if s == [] then 0 else Utf16Length(s[1..]) + (if s[0] as int < 0x1_0000 then 1 else 2)
  }

  /** For text made of Basic Multilingual Plane characters only, the bounds the
      schemas place on lengths are bounds on the number of characters. */
  lemma {:induction false} BmpLength(s: string)
    requires forall i :: 0 <= i < |s| ==> s[i] as int < 0x1_0000
    ensures Utf16Length(s) == |s|
  {
    if s != [] {
      BmpLength(s[1..]);
    }
  }

  // ---- ObjectId text form ----

  function Pow16(n: nat): (p: nat)
    ensures p >= 1
  {
    if n == 0 then 1 else 16 * Pow16(n - 1)
  }

  predicate IsHexDigit(c: char) {
    '0' <= c <= '9' || 'a' <= c <= 'f' || 'A' <= c <= 'F'
  }

  predicate AllHex(s: string) {
    forall i :: 0 <= i < |s| ==> IsHexDigit(s[i])
  }

  /** The `gigId` rule of `bidSchema`: the regex `^[0-9a-fA-F]{24}$`. */
  predicate IsObjectIdHex(s: string) {
    |s| == 24 && AllHex(s)
  }

  function HexValue(c: char): (v: nat)
    requires IsHexDigit(c)
    ensures v < 16
  {
    if '0' <= c <= '9' then c as nat - '0' as nat
    else if 'a' <= c <= 'f' then c as nat - 'a' as nat + 10
    else c as nat - 'A' as nat + 10
  }

  function LowerHexDigit(v: nat): (c: char)
    requires v < 16
    ensures IsHexDigit(c) && HexValue(c) == v && !('A' <= c <= 'F')
  {
    if v < 10 then ('0' as nat + v) as char else ('a' as nat + v - 10) as char
  }

  function LowerHex(c: char): (d: char)
    requires IsHexDigit(c)
    ensures IsHexDigit(d) && HexValue(d) == HexValue(c) && !('A' <= d <= 'F')
  {
    if 'A' <= c <= 'F' then (c as nat - 'A' as nat + 'a' as nat) as char else c
  }

  function LowerCase(s: string): (t: string)
    requires AllHex(s)
    ensures |t| == |s|
  {
    seq(|s|, i requires 0 <= i < |s| => LowerHex(s[i]))
  }

  /** The number a hex string denotes, most significant digit first. */
  function ParseHex(s: string): (n: nat)
    requires AllHex(s)
    ensures n < Pow16(|s|)
  {
    if s == [] then 0
    else
      var n0 := ParseHex(s[..|s| - 1]);
      var d := HexValue(s[|s| - 1]);
      assert n0 * 16 + d < Pow16(|s|) by { ShiftBound(n0, d, |s| - 1); }
      n0 * 16 + d
  }

  lemma ShiftBound(n0: nat, d: nat, k: nat)
    requires n0 < Pow16(k) && d < 16
    ensures n0 * 16 + d < Pow16(k + 1)
  {
    assert n0 + 1 <= Pow16(k);
    assert (n0 + 1) * 16 <= Pow16(k) * 16;
  }

  /** `n` written with exactly `width` lower-case hex digits. */
  function FormatHex(n: nat, width: nat): (s: string)
    requires n < Pow16(width)
    ensures |s| == width && AllHex(s)
    ensures forall i :: 0 <= i < |s| ==> !('A' <= s[i] <= 'F')
  {
    if width == 0 then []
    else
      assert n / 16 < Pow16(width - 1);
      FormatHex(n / 16, width - 1) + [LowerHexDigit(n % 16)]
  }

  /** Mongoose's cast of a validated id string to an ObjectId. */
  function ParseObjectId(s: string): (id: nat)
    requires IsObjectIdHex(s)
    ensures id < Pow16(24)
  {
    ParseHex(s)
  }

  /** `ObjectId.toString()`: 24 lower-case hex digits. */
  function ObjectIdString(id: nat): (s: string)
    requires id < Pow16(24)
    ensures IsObjectIdHex(s)
  {
    FormatHex(id, 24)
  }

  lemma {:induction false} ParseFormat(n: nat, width: nat)
    requires n < Pow16(width)
    ensures ParseHex(FormatHex(n, width)) == n
  {
    if width > 0 {
      var s := FormatHex(n, width);
      assert s[..|s| - 1] == FormatHex(n / 16, width - 1);
      ParseFormat(n / 16, width - 1);
    }
  }

  lemma {:induction false} FormatParse(s: string)
    requires AllHex(s)
    ensures FormatHex(ParseHex(s), |s|) == LowerCase(s)
  {
    if s != [] {
      var init, c := s[..|s| - 1], s[|s| - 1];
      FormatParse(init);
      DigitShift(ParseHex(init), HexValue(c));
      LowerDigitOf(c);
      assert LowerCase(s) == LowerCase(init) + [LowerHex(c)];
    }
  }

  /** Appending a digit and splitting it off again. */
  lemma DigitShift(n0: nat, d: nat)
    requires d < 16
    ensures (n0 * 16 + d) / 16 == n0 && (n0 * 16 + d) % 16 == d
  {
  }

  /** The lower-case digit of a hex digit's value is its lower-case form. */
  lemma LowerDigitOf(c: char)
    requires IsHexDigit(c)
    ensures LowerHexDigit(HexValue(c)) == LowerHex(c)
  {
  }

  /** Printing an ObjectId and casting the text back gives the same id. */
  lemma ObjectIdRoundTrip(id: nat)
    requires id < Pow16(24)
    ensures ParseObjectId(ObjectIdString(id)) == id
  {
    ParseFormat(id, 24);
  }

  /** Casting an accepted id string and printing it gives the string in lower
      case: two `gigId` strings name the same ObjectId exactly when they agree
      up to the case of their letters. */
  lemma ObjectIdCasing(s: string, t: string)
    requires IsObjectIdHex(s) && IsObjectIdHex(t)
    ensures ObjectIdString(ParseObjectId(s)) == LowerCase(s)
    ensures ParseObjectId(s) == ParseObjectId(t) <==> LowerCase(s) == LowerCase(t)
  {
    FormatParse(s);
    FormatParse(t);
    if LowerCase(s) == LowerCase(t) {
      ParseFormat(ParseHex(s), 24);
      ParseFormat(ParseHex(t), 24);
    }
  }

  // ---- request schemas ----

  datatype RegisterInput = RegisterInput(username: string, email: string, password: string)
  datatype LoginInput = LoginInput(email: string, password: string)
  datatype GigInput = GigInput(title: string, description: string, budget: real)
  datatype BidInput = BidInput(gigId: string, message: string, price: real)

  /** zod's `min(lo).max(hi)` on a string. */
  predicate LengthWithin(s: string, lo: nat, hi: nat) {
    lo <= Utf16Length(s) <= hi
  }

  /** `registerSchema`; zod's e-mail format check is the oracle `isEmail`. */
  predicate RegisterValid(r: RegisterInput, isEmail: string -> bool) {
    LengthWithin(r.username, 3, 30) && isEmail(r.email) && Utf16Length(r.password) >= 6
  }

  /** `loginSchema`. */
  predicate LoginValid(l: LoginInput, isEmail: string -> bool) {
    isEmail(l.email) && Utf16Length(l.password) >= 1
  }

  /** `gigSchema`. */
  predicate GigValid(g: GigInput) {
    LengthWithin(g.title, 1, 200) && LengthWithin(g.description, 1, 2000) && g.budget >= 1.0
  }

  /** `bidSchema`. */
  predicate BidValid(b: BidInput) {
    IsObjectIdHex(b.gigId) && LengthWithin(b.message, 1, 1000) && b.price >= 1.0
  }

  /** What an accepted bid body guarantees, in characters: a gig id that is an
      ObjectId's text, a message of 1 to 1000 characters, a positive price. */
  lemma BidValidMeans(b: BidInput)
    requires BidValid(b)
    ensures |b.gigId| == 24 && 1 <= |b.message| <= 1000 && b.price > 0.0
    ensures ParseObjectId(b.gigId) < Pow16(24)
    ensures ObjectIdString(ParseObjectId(b.gigId)) == LowerCase(b.gigId)
  {
    ObjectIdCasing(b.gigId, b.gigId);
  }

  /** What an accepted gig body guarantees, in characters. */
  lemma GigValidMeans(g: GigInput)
    requires GigValid(g)
    ensures 1 <= |g.title| <= 200 && 1 <= |g.description| <= 2000 && g.budget > 0.0
  {
  }

  /** What an accepted registration guarantees, in characters: a username of
      2 to 30 characters (3 code units at least) and a password of 3 or more. */
  lemma RegisterValidMeans(r: RegisterInput, isEmail: string -> bool)
    requires RegisterValid(r, isEmail)
    ensures 2 <= |r.username| <= 30 && |r.password| >= 3 && isEmail(r.email)
  {
  }

  /** A login is accepted only with a non-empty password. */
  lemma LoginValidMeans(l: LoginInput, isEmail: string -> bool)
    requires LoginValid(l, isEmail)
    ensures l.password != [] && isEmail(l.email)
  {
  }
}
