/** The Socket.io handshake of server/socket/socket.js: where the session
    token is taken from (the handshake's auth field, else the `token` cookie),
    the accept/reject decision, and the personal room a connection joins.
    JWT verification and the user lookup are oracles passed in. */
module Socket {
  import opened Entities
  import opened Validation

  // ---- JavaScript string helpers ----

  /** The characters `String.prototype.trim` removes: the ECMAScript
      WhiteSpace (tab, vertical tab, form feed, space, no-break space, the
      byte order mark and the other space separators) and LineTerminator
      code points. */
  predicate IsJsSpace(c: char) {
    var n := c as int;
    || n == 0x09 || n == 0x0B || n == 0x0C || n == 0x20 || n == 0xA0 || n == 0xFEFF
    || n == 0x1680 || (0x2000 <= n <= 0x200A) || n == 0x202F || n == 0x205F || n == 0x3000
    || n == 0x0A || n == 0x0D || n == 0x2028 || n == 0x2029
  }

  /** Leading white space dropped: a suffix of `s` starting with a
      non-space, after only spaces. */
  function TrimStart(s: string): (t: string)
    ensures |t| <= |s|
    ensures forall i :: 0 <= i < |s| - |t| ==> IsJsSpace(s[i])
    ensures t != [] ==> !IsJsSpace(t[0])
  {
    if s != [] && IsJsSpace(s[0]) then TrimStart(s[1..]) else s
  }

  /** What `TrimStart` keeps is the rest of the string. */
  lemma {:induction false} TrimStartSuffix(s: string)
    ensures TrimStart(s) == s[|s| - |TrimStart(s)|..]
  {
    if s != [] && IsJsSpace(s[0]) {
      TrimStartSuffix(s[1..]);
    }
  }

  /** Trailing white space dropped: a prefix of `s` ending with a non-space,
      followed by only spaces. */
  function TrimEnd(s: string): (t: string)
    ensures |t| <= |s| && t == s[..|t|]
    ensures forall i :: |t| <= i < |s| ==> IsJsSpace(s[i])
    ensures t != [] ==> !IsJsSpace(t[|t| - 1])
  {
    if s != [] && IsJsSpace(s[|s| - 1]) then TrimEnd(s[..|s| - 1]) else s
  }

  /** `s.trim()`. */
  function Trim(s: string): string {
    TrimEnd(TrimStart(s))
  }

  predicate StartsWith(s: string, prefix: string) {
    |prefix| <= |s| && s[..|prefix|] == prefix
  }

  /** Position of the first `c` in `s`. */
  function IndexOf(s: string, c: char): (i: nat)
    requires c in s
    ensures i < |s| && s[i] == c && c !in s[..i]
  {
    if s[0] == c then 0 else 1 + IndexOf(s[1..], c)
  }

  /** `s.split(sep)` for a one-character separator: the pieces between
      separators, in order, an empty piece where two separators meet or at
      either end, and one piece for a string without the separator. */
  function Split(s: string, sep: char): (r: seq<string>)
    ensures |r| >= 1
    ensures forall i :: 0 <= i < |r| ==> sep !in r[i]
    ensures sep !in s ==> r == [s]
    decreases |s|
  {
    if sep !in s then [s]
    else
      var i := IndexOf(s, sep);
      [s[..i]] + Split(s[i + 1..], sep)
  }

  /** `parts.join(sep)`: the inverse of `Split`. */
  function Join(parts: seq<string>, sep: char): string
    requires |parts| >= 1
  {
    if |parts| == 1 then parts[0] else parts[0] + [sep] + Join(parts[1..], sep)
  }

  /** Splitting and joining again gives back the string. */
  lemma {:induction false} SplitJoin(s: string, sep: char)
    ensures Join(Split(s, sep), sep) == s
    decreases |s|
  {
    if sep in s {
      var i := IndexOf(s, sep);
      SplitJoin(s[i + 1..], sep);
      assert s == s[..i] + [sep] + s[i + 1..];
    }
  }

  /** Joining pieces free of the separator and splitting again gives back
      the pieces. */
  lemma {:induction false} JoinSplit(parts: seq<string>, sep: char)
    requires |parts| >= 1
    requires forall i :: 0 <= i < |parts| ==> sep !in parts[i]
    ensures Split(Join(parts, sep), sep) == parts
  {
    if |parts| > 1 {
      JoinSplit(parts[1..], sep);
      SplitAfter(parts[0], sep, Join(parts[1..], sep));
      assert parts == [parts[0]] + parts[1..];
    }
  }

  /** A first piece free of the separator is split off as it is. */
  lemma SplitAfter(a: string, sep: char, b: string)
    requires sep !in a
    ensures Split(a + [sep] + b, sep) == [a] + Split(b, sep)
  {
    var s := a + [sep] + b;
    IndexOfAfter(a, sep, b);
    assert s[..|a|] == a;
    assert s[|a| + 1..] == b;
  }

  lemma IndexOfAfter(a: string, sep: char, b: string)
    requires sep !in a
    ensures sep in a + [sep] + b && IndexOf(a + [sep] + b, sep) == |a|
  {
    var s := a + [sep] + b;
    assert s[|a|] == sep;
    assert s[..|a|] == a;
  }

  // ---- the token ----

  /** The name part that marks the session cookie. */
  const TokenPrefix: string := "token="

  /** `c.trim().startsWith('token=')`. */
  predicate IsTokenCookie(c: string) {
    StartsWith(Trim(c), TokenPrefix)
  }

  /** `find` on an array of strings: the position of the first element
      satisfying `p`, or -1. */
  function FindFirst(xs: seq<string>, p: string -> bool): (r: int)
    ensures -1 <= r < |xs|
    ensures r == -1 <==> forall i :: 0 <= i < |xs| ==> !p(xs[i])
    ensures r >= 0 ==> p(xs[r]) && forall j :: 0 <= j < r ==> !p(xs[j])
  {
    if xs == [] then -1
    else if p(xs[0]) then 0
    else
      var r := FindFirst(xs[1..], p);
      assert forall j :: 1 <= j < |xs| ==> xs[j] == xs[1..][j - 1];
      if r == -1 then -1 else r + 1
  }

  /** `cookies.find(c => c.trim().startsWith('token='))`: the position of the
      first cookie whose trimmed text starts with `token=`, or -1. */
  function FindTokenPiece(pieces: seq<string>): (r: int)
    ensures -1 <= r < |pieces|
    ensures r == -1 <==> forall i :: 0 <= i < |pieces| ==> !IsTokenCookie(pieces[i])
    ensures r >= 0 ==>
      && IsTokenCookie(pieces[r])
      && forall j :: 0 <= j < r ==> !IsTokenCookie(pieces[j])
  {
    FindFirst(pieces, IsTokenCookie)
  }

  /** The chosen cookie holds an `=` (its trimmed text does), so
      `split('=')[1]` exists. */
  lemma TokenPieceHasValue(piece: string)
    requires IsTokenCookie(piece)
    ensures |Split(piece, '=')| >= 2
  {
    var t := TrimStart(piece);
    var u := Trim(piece);
    TrimStartSuffix(piece);
    assert u[5] == '=';
    assert t[5] == '=';
    assert piece[|piece| - |t| + 5] == '=';
  }

  /** The token the cookie header carries: `split('=')[1]` of the first
      cookie whose trimmed text starts with `token=`, if there is one. */
  function CookieToken(header: string): Option<string> {
    var pieces := Split(header, ';');
    var i := FindTokenPiece(pieces);
    if i == -1 then None
    else
      TokenPieceHasValue(pieces[i]);
      Some(Split(pieces[i], '=')[1])
  }

  /** A cookie value is never a whole cookie: it holds neither `;` nor `=`. */
  lemma CookieTokenShape(header: string)
    requires CookieToken(header).Some?
    ensures ';' !in CookieToken(header).value && '=' !in CookieToken(header).value
  {
    var pieces := Split(header, ';');
    var piece := pieces[FindTokenPiece(pieces)];
    TokenPieceHasValue(piece);
    SplitPiecesWithin(piece, '=', ';');
  }

  /** The pieces of a split contain nothing the string does not. */
  lemma {:induction false} SplitPiecesWithin(s: string, sep: char, c: char)
    requires c !in s
    ensures forall i :: 0 <= i < |Split(s, sep)| ==> c !in Split(s, sep)[i]
    decreases |s|
  {
    if sep in s {
      var i := IndexOf(s, sep);
      assert s == s[..i] + s[i..];
      assert s[i..] == [s[i]] + s[i + 1..];
      SplitPiecesWithin(s[i + 1..], sep, c);
    }
  }

  /** A header that carries `token=<t>`, possibly after other cookies and
      leading white space, yields exactly `t`. */
  lemma CookieTokenRoundTrip(before: seq<string>, space: string, t: string, after: seq<string>)
    requires forall i :: 0 <= i < |before| ==> ';' !in before[i] && !IsTokenCookie(before[i])
    requires forall i :: 0 <= i < |after| ==> ';' !in after[i]
    requires forall i :: 0 <= i < |space| ==> IsJsSpace(space[i])
    requires ';' !in t && '=' !in t
    ensures CookieToken(Join(before + [space + TokenPrefix + t] + after, ';')) == Some(t)
  {
    var piece := space + TokenPrefix + t;
    var pieces := before + [piece] + after;
    SplitTokenPiece(space, t);
    TokenPieceWithout(space, t);
    TrimTokenPiece(space, t);
    FindAfter(before, piece, after);
    PiecesWithout(before, piece, after, ';');
    JoinSplit(pieces, ';');
    CookieTokenOf(Join(pieces, ';'), pieces, |before|);
  }

  /** The token read from a header that splits into known pieces. */
  lemma CookieTokenOf(header: string, pieces: seq<string>, i: nat)
    requires Split(header, ';') == pieces
    requires i < |pieces| && FindTokenPiece(pieces) == i
    requires |Split(pieces[i], '=')| >= 2
    ensures CookieToken(header) == Some(Split(pieces[i], '=')[1])
  {
  }

  lemma PiecesWithout(before: seq<string>, piece: string, after: seq<string>, c: char)
    requires forall i :: 0 <= i < |before| ==> c !in before[i]
    requires forall i :: 0 <= i < |after| ==> c !in after[i]
    requires c !in piece
    ensures forall i :: 0 <= i < |before + [piece] + after| ==> c !in (before + [piece] + after)[i]
  {
    var pieces := before + [piece] + after;
    forall i | 0 <= i < |pieces| ensures c !in pieces[i] {
      if i < |before| {
        assert pieces[i] == before[i];
      } else if i > |before| {
        assert pieces[i] == after[i - |before| - 1];
      }
    }
  }

  /** `split('=')[1]` of `<space>token=<t>` is `t`. */
  lemma SplitTokenPiece(space: string, t: string)
    requires forall i :: 0 <= i < |space| ==> IsJsSpace(space[i])
    requires '=' !in t
    ensures |Split(space + TokenPrefix + t, '=')| >= 2
    ensures Split(space + TokenPrefix + t, '=')[1] == t
  {
    var name := space + "token";
    assert space + TokenPrefix + t == name + ['='] + t;
    NameWithout(space, '=');
    SplitAfter(name, '=', t);
  }

  /** `<space>token` holds no `=` and no `;`. */
  lemma NameWithout(space: string, c: char)
    requires forall i :: 0 <= i < |space| ==> IsJsSpace(space[i])
    requires c == '=' || c == ';'
    ensures c !in space + "token"
  {
    var name := space + "token";
    forall i | 0 <= i < |name|
      ensures name[i] != c
    {
      if i < |space| {
        assert name[i] == space[i];
      }
    }
  }

  /** The token cookie holds no `;` when its value holds none. */
  lemma TokenPieceWithout(space: string, t: string)
    requires forall i :: 0 <= i < |space| ==> IsJsSpace(space[i])
    requires ';' !in t
    ensures ';' !in space + TokenPrefix + t
  {
    NameWithout(space, ';');
    assert space + TokenPrefix + t == (space + "token") + ['='] + t;
  }

  lemma TrimTokenPiece(space: string, t: string)
    requires forall i :: 0 <= i < |space| ==> IsJsSpace(space[i])
    ensures IsTokenCookie(space + TokenPrefix + t)
  {
    var s := space + TokenPrefix + t;
    var x := "token=" + t;
    var u := TrimStart(s);
    TrimStartSuffix(s);
    assert s[|space|] == 't' && !IsJsSpace('t');
    assert s[|space|..] == x;
    assert u == x;
    var v := TrimEnd(u);
    assert u[5] == '=' && !IsJsSpace('=');
    assert v[..6] == u[..6];
  }

  lemma FindAfter(before: seq<string>, piece: string, after: seq<string>)
    requires forall i :: 0 <= i < |before| ==> !IsTokenCookie(before[i])
    requires IsTokenCookie(piece)
    ensures FindTokenPiece(before + [piece] + after) == |before|
  {
    var pieces := before + [piece] + after;
    assert pieces[|before|] == piece;
    assert forall i :: 0 <= i < |before| ==> pieces[i] == before[i];
  }

  // ---- the handshake ----

  /** What the client sends: `handshake.auth.token` and the `Cookie` header. */
  datatype Handshake = Handshake(authToken: Option<string>, cookie: Option<string>)

  /** JavaScript truthiness of a string that may be absent. */
  predicate Truthy(s: Option<string>) {
    s.Some? && s.value != []
  }

  /** The token the middleware goes on with, if any: a truthy auth token,
      else a truthy cookie token read from a truthy cookie header. */
  function HandshakeToken(h: Handshake): (r: Option<string>)
    ensures r.Some? ==> r.value != []
  {
    if Truthy(h.authToken) then h.authToken
    else if Truthy(h.cookie) && Truthy(CookieToken(h.cookie.value)) then CookieToken(h.cookie.value)
    else None
  }

  /** A truthy auth token is used as it is and the cookies are not looked
      at; otherwise the `token` cookie supplies it whenever its value is
      non-empty, nothing else can, and an empty cookie value supplies none. */
  lemma HandshakeTokenSource(h: Handshake)
    ensures Truthy(h.authToken) ==> HandshakeToken(h) == h.authToken
    ensures !Truthy(h.authToken) && HandshakeToken(h).Some? ==>
      Truthy(h.cookie) && HandshakeToken(h) == CookieToken(h.cookie.value)
    ensures !Truthy(h.authToken) && Truthy(h.cookie) && Truthy(CookieToken(h.cookie.value)) ==>
      HandshakeToken(h) == CookieToken(h.cookie.value)
    ensures !Truthy(h.authToken) && Truthy(h.cookie) && CookieToken(h.cookie.value) == Some([]) ==>
      HandshakeToken(h) == None
    ensures !Truthy(h.authToken) && HandshakeToken(h).Some? ==>
      ';' !in HandshakeToken(h).value && '=' !in HandshakeToken(h).value
  {
    if !Truthy(h.authToken) && HandshakeToken(h).Some? {
      CookieTokenShape(h.cookie.value);
    }
  }

  /** Ids as the 24-hex-digit strings that `toString()` produces. */
  type ObjectIdValue = n: nat | n < Pow16(24)

  /** Room names tell users apart: two users share a room name only if they
      are the same user, so an event sent to a freelancer's room reaches
      that freelancer's connections only. */
  lemma RoomsIdentifyUsers(a: ObjectIdValue, b: ObjectIdValue)
    ensures ObjectIdString(a) == ObjectIdString(b) <==> a == b
  {
    ObjectIdRoundTrip(a);
    ObjectIdRoundTrip(b);
  }

  /** `User.findById(decoded.userId)`: the user, no user, or a thrown error. */
  datatype UserLookup = Found(id: ObjectIdValue) | Missing | Failed

  /** `next()` or `next(new Error(message))`. */
  datatype Admission = Admitted | Refused(message: string)

  class Connection {
    var userId: Option<string>
    var rooms: set<string>

    constructor ()
      ensures userId == None && rooms == {}
    {
      userId := None;
      rooms := {};
    }

    /** The authentication middleware. `verify` stands for `jwt.verify` with
        the server's secret: the token's `userId` claim, or nothing when it
        throws; `findUser` for the user lookup. A missing token or a failed
        verification or lookup answers "Authentication error", an unknown
        user "User not found"; a known user is admitted and the connection
        remembers the user's id string. */
    method Authenticate(h: Handshake, verify: string -> Option<string>, findUser: string -> UserLookup)
      returns (a: Admission)
      modifies this
      ensures HandshakeToken(h).None? ==> a == Refused("Authentication error")
      ensures HandshakeToken(h).Some? ==>
        var t := HandshakeToken(h).value;
        && (verify(t).None? ==> a == Refused("Authentication error"))
        && (verify(t).Some? ==>
              a == match findUser(verify(t).value)
                   case Found(_) => Admitted
                   case Missing => Refused("User not found")
                   case Failed => Refused("Authentication error"))
      ensures a.Admitted? ==>
        var u := findUser(verify(HandshakeToken(h).value).value);
        u.Found? && userId == Some(ObjectIdString(u.id))
      ensures a.Refused? ==> userId == old(userId)
      ensures rooms == old(rooms)
    {
      var token := h.authToken;
      if !Truthy(token) && Truthy(h.cookie) {
        var cookies := Split(h.cookie.value, ';');
        var index := FindTokenPiece(cookies);
        if index != -1 {
          TokenPieceHasValue(cookies[index]);
          token := Some(Split(cookies[index], '=')[1]);
        }
        assert Truthy(token) ==> token == CookieToken(h.cookie.value);
      }
      assert Truthy(token) ==> token == HandshakeToken(h);
      assert !Truthy(token) ==> HandshakeToken(h).None?;
      if !Truthy(token) {
        return Refused("Authentication error");
      }
      var decoded := verify(token.value);
      if decoded.None? {
        return Refused("Authentication error");
      }
      var user := findUser(decoded.value);
      match user {
        case Failed =>
          return Refused("Authentication error");
        case Missing =>
          return Refused("User not found");
        case Found(id) =>
          userId := Some(ObjectIdString(id));
          return Admitted;
      }
    }

    /** On connection: join the room named by the user's id. */
    method JoinOwnRoom()
      requires userId.Some?
      modifies this
      ensures userId == old(userId)
      ensures rooms == old(rooms) + {userId.value}
    {
      rooms := rooms + {userId.value};
    }
  }
}
