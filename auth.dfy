/** The two request guards of banka/backend/middleware/auth.js. Signing and checking
    tokens is outside the model: `tokens` stands for the token texts that pass
    verification, each with the user id of its payload. */
module Auth {
  import opened Common
  import opened UserModel

  /** What a guard reads: the `Authorization` header (absent or present), the tokens
      that verify, and the user collection. */
  datatype Credentials = Credentials(
    header: Option<string>,
    tokens: map<string, UserId>,
    users: map<UserId, User>)

  /** A guard either passes control on with the user it puts on the request, or
      answers itself with a status and an error text. */
  datatype Gate<+T> = Pass(value: T) | Deny(code: int, message: string)

  const AccessDenied := "Access denied"
  const InvalidToken := "Invalid or expired token"
  const UserNotFound := "User not found"
  const ForbiddenMessage := "Forbidden"

  // ---------------------------------------------------------------- header text

  predicate OccursAt(s: string, pat: string, i: nat) {
    i + |pat| <= |s| && s[i..i + |pat|] == pat
  }

  /** The search of `indexOf`: the first position at or after `i` where `pat`
      occurs in `s` (see `IndexFromFirst`). */
  function IndexFrom(s: string, pat: string, i: nat): (r: Option<nat>)
    requires i <= |s|
    ensures r.Some? ==> i <= r.value && r.value + |pat| <= |s|
    decreases |s| - i
  {
    if OccursAt(s, pat, i) then Some(i)
    else if i == |s| then None
    else IndexFrom(s, pat, i + 1)
  }

  /** `IndexFrom` finds the first occurrence at or after `i`, and `None` means there
      is none. */
  lemma {:induction false} IndexFromFirst(s: string, pat: string, i: nat)
    requires i <= |s|
    ensures IndexFrom(s, pat, i).Some? ==>
              i <= IndexFrom(s, pat, i).value && OccursAt(s, pat, IndexFrom(s, pat, i).value)
              && forall j :: i <= j < IndexFrom(s, pat, i).value ==> !OccursAt(s, pat, j)
    ensures IndexFrom(s, pat, i).None? ==> forall j :: i <= j <= |s| ==> !OccursAt(s, pat, j)
    decreases |s| - i
  {
    if !OccursAt(s, pat, i) && i < |s| {
      IndexFromFirst(s, pat, i + 1);
    }
  }

  /** `s.replace(pat, rep)` with a string pattern and a replacement holding no `$`
      (JavaScript reads `$&`, `$$` and the like in a replacement; the one call, in
      `ReplacedToken`, replaces by the empty string): only the first occurrence is
      replaced (see `ReplaceFirstOccurrence`), so the text is either unchanged or one
      `pat` shorter and one `rep` longer. */
  function ReplaceFirst(s: string, pat: string, rep: string): (r: string)
    ensures r == s || |r| == |s| - |pat| + |rep|
  {
    match IndexFrom(s, pat, 0)
    case None => s
    case Some(i) => s[..i] + rep + s[i + |pat|..]
  }

  /** A text without the pattern is left as it is; otherwise the first occurrence,
      and only it, is replaced. */
  lemma ReplaceFirstOccurrence(s: string, pat: string, rep: string)
    ensures (forall j :: 0 <= j <= |s| ==> !OccursAt(s, pat, j)) ==> ReplaceFirst(s, pat, rep) == s
    ensures forall i :: 0 <= i <= |s| && OccursAt(s, pat, i) && (forall j :: 0 <= j < i ==> !OccursAt(s, pat, j))
                        ==> ReplaceFirst(s, pat, rep) == s[..i] + rep + s[i + |pat|..]
  {
    IndexFromFirst(s, pat, 0);
  }

  /** The position of the first `c` in `s`. */
  function FirstIndex(s: string, c: char): (i: nat)
    requires c in s
    ensures i < |s| && s[i] == c && c !in s[..i]
    decreases |s|
  {
    if s[0] == c then 0
    else
      var j := FirstIndex(s[1..], c);
      assert s[..j + 1] == [s[0]] + s[1..][..j];
      j + 1
  }

  /** `s.split(sep)` for a one-character separator. */
  function Fields(s: string, sep: char): (r: seq<string>)
    ensures |r| >= 1
    decreases |s|
  {
    if sep !in s then [s]
    else
      var i := FirstIndex(s, sep);
      [s[..i]] + Fields(s[i + 1..], sep)
  }

  /** No field holds the separator. */
  lemma {:induction false} FieldsFree(s: string, sep: char)
    ensures forall f :: f in Fields(s, sep) ==> sep !in f
    decreases |s|
  {
    if sep in s {
      var i := FirstIndex(s, sep);
      FieldsFree(s[i + 1..], sep);
    }
  }

  /** `fs.join(sep)`. */
  function Join(fs: seq<string>, sep: char): string
    requires |fs| >= 1
    decreases |fs|
  {
    if |fs| == 1 then fs[0] else fs[0] + [sep] + Join(fs[1..], sep)
  }

  /** Splitting loses nothing: joining the fields again gives back the header text. */
  lemma {:induction false} SplitJoin(s: string, sep: char)
    ensures Join(Fields(s, sep), sep) == s
    decreases |s|
  {
    if sep in s {
      var i := FirstIndex(s, sep);
      SplitJoin(s[i + 1..], sep);
      JoinCons(s[..i], Fields(s[i + 1..], sep), sep);
      assert s == s[..i] + [sep] + s[i + 1..];
    }
  }

  lemma JoinCons(a: string, rest: seq<string>, sep: char)
    requires |rest| >= 1
    ensures Join([a] + rest, sep) == a + [sep] + Join(rest, sep)
  {
    assert ([a] + rest)[1..] == rest;
  }

  /** `authenticateUser` reads `header?.replace('Bearer ', '')`: absent exactly when the
      header is, and never longer than it (see `ReplacedTokenReads`). */
  function ReplacedToken(header: Option<string>): (r: Option<string>)
    ensures r.Some? <==> header.Some?
    ensures r.Some? ==> |r.value| <= |header.value|
  {
    match header
    case None => None
    case Some(h) => Some(ReplaceFirst(h, "Bearer ", ""))
  }

  /** A header that starts with `Bearer ` loses that prefix, and one that holds no
      `Bearer ` is read whole. */
  lemma ReplacedTokenReads(h: string)
    ensures (forall j :: 0 <= j <= |h| ==> !OccursAt(h, "Bearer ", j)) ==> ReplacedToken(Some(h)) == Some(h)
    ensures OccursAt(h, "Bearer ", 0) ==> ReplacedToken(Some(h)) == Some(h[|"Bearer "|..])
  {
    ReplaceFirstOccurrence(h, "Bearer ", "");
    if OccursAt(h, "Bearer ", 0) {
      assert h[..0] + "" + h[|"Bearer "|..] == h[|"Bearer "|..];
    }
  }

  /** `authorizeRole` reads `header?.split(' ')[1]`: present exactly when the header
      holds a space, and then free of spaces (see `SplitTokenReads`). */
  function SplitToken(header: Option<string>): (r: Option<string>)
    ensures r.Some? <==> header.Some? && ' ' in header.value
    ensures r.Some? ==> ' ' !in r.value
  {
    match header
    case None => None
    case Some(h) =>
      var fs := Fields(h, ' ');
      if |fs| >= 2 then
        FieldsFree(h, ' ');
        Some(fs[1])
      else None
  }

  /** The token `authorizeRole` reads is the text after the first space, up to the
      next space or the end. */
  lemma SplitTokenReads(h: string)
    requires ' ' in h
    ensures var rest := h[FirstIndex(h, ' ') + 1..];
            var r := SplitToken(Some(h)).value;
            r <= rest && (|r| == |rest| || rest[|r|] == ' ')
  {
    FieldsHead(h[FirstIndex(h, ' ') + 1..], ' ');
  }

  /** The first field is the text up to the first separator, or all of it. */
  lemma FieldsHead(s: string, sep: char)
    ensures var f := Fields(s, sep)[0];
            sep !in f && f <= s && (|f| == |s| || s[|f|] == sep)
  {
  }

  /** A token is missing when it is undefined or the empty string (both falsy). */
  predicate Missing(t: Option<string>) {
    t == None || t == Some("")
  }

  /** A text that starts with the pattern loses exactly that prefix. */
  lemma ReplacePrefix(pat: string, t: string)
    ensures ReplaceFirst(pat + t, pat, "") == t
  {
    var s := pat + t;
    assert OccursAt(s, pat, 0);
    assert s[..0] + "" + s[|pat|..] == t;
  }

  /** A field free of the separator, then the separator, then the rest. */
  lemma FieldsAfter(a: string, sep: char, b: string)
    requires sep !in a
    ensures Fields(a + [sep] + b, sep) == [a] + Fields(b, sep)
  {
    var s := a + [sep] + b;
    assert s[|a|] == sep;
    var i := FirstIndex(s, sep);
    assert s[..i] == a;
    assert s[i + 1..] == b;
  }

  /** On a well-formed `Bearer <token>` header both guards read the same token. */
  lemma BearerHeaderReadsAlike(t: string)
    requires t != "" && ' ' !in t
    ensures ReplacedToken(Some("Bearer " + t)) == Some(t)
    ensures SplitToken(Some("Bearer " + t)) == Some(t)
  {
    ReplacePrefix("Bearer ", t);
    assert "Bearer " == "Bearer" + [' '];
    assert "Bearer " + t == "Bearer" + [' '] + t;
    FieldsAfter("Bearer", ' ', t);
    assert Fields(t, ' ') == [t];
    assert Fields("Bearer " + t, ' ')[1] == t;
  }

  /** The two readings part on a header with a second space: `Bearer a b` gives
      `a b` to `authenticateUser` and only `a` to `authorizeRole`. */
  lemma SpacedHeaderReadsDifferently(a: string, b: string)
    requires ' ' !in a
    ensures ReplacedToken(Some("Bearer " + (a + [' '] + b))) == Some(a + [' '] + b)
    ensures SplitToken(Some("Bearer " + (a + [' '] + b))) == Some(a)
  {
    ReplacePrefix("Bearer ", a + [' '] + b);
    SecondField(a, b);
  }

  lemma SecondField(a: string, b: string)
    requires ' ' !in a
    ensures SplitToken(Some("Bearer " + (a + [' '] + b))) == Some(a)
  {
    var ab := a + [' '] + b;
    assert "Bearer " == "Bearer" + [' '];
    assert "Bearer " + ab == "Bearer" + [' '] + ab;
    FieldsAfter("Bearer", ' ', ab);
    FieldsAfter(a, ' ', b);
    assert Fields("Bearer " + ab, ' ')[1] == a;
  }

  // ---------------------------------------------------------------- the guards

  /** `authenticateUser`, mounted in front of every account and transaction route:
      a missing token or one that does not verify gets 401; otherwise the request
      carries the looked-up user, which is null when the id is unknown. */
  function Authenticate(c: Credentials): (r: Gate<Option<User>>)
    ensures r.Deny? ==> r.code == Unauthorized
    ensures Missing(ReplacedToken(c.header)) ==> r == Deny(Unauthorized, AccessDenied)
    ensures !Missing(ReplacedToken(c.header)) && ReplacedToken(c.header).value !in c.tokens
            ==> r == Deny(Unauthorized, InvalidToken)
    ensures r.Pass? <==> !Missing(ReplacedToken(c.header)) && ReplacedToken(c.header).value in c.tokens
    ensures r.Pass? ==> var id := c.tokens[ReplacedToken(c.header).value];
                        r.value == if id in c.users then Some(c.users[id]) else None
  {
    var t := ReplacedToken(c.header);
    if Missing(t) then Deny(Unauthorized, AccessDenied)
    else if t.value !in c.tokens then Deny(Unauthorized, InvalidToken)
    else
      var id := c.tokens[t.value];
      Pass(if id in c.users then Some(c.users[id]) else None)
  }

  /** The role decision of `authorizeRole`: `admin` looks only at `isAdmin`, `staff`
      and `client` look only at the stored role, any other string admits everyone. */
  function Admits(required: string, u: User): (b: bool)
    ensures required == "admin" ==> (b <==> u.isAdmin)
    ensures required == "staff" ==> (b <==> u.role == Staff)
    ensures required == "client" ==> (b <==> u.role == Client)
    ensures required != "admin" && required != "staff" && required != "client" ==> b
  {
    if required == "admin" && !u.isAdmin then false
    else if required == "staff" && RoleName(u.role) != "staff" then false
    else if required == "client" && RoleName(u.role) != "client" then false
    else true
  }

  /** `isAdmin` does not open a staff route, and the staff role does not open an admin one. */
  lemma AdminAndStaffAreSeparate(u: User)
    ensures u.isAdmin && u.role == Client ==> !Admits("staff", u) && Admits("admin", u)
    ensures !u.isAdmin && u.role == Staff ==> Admits("staff", u) && !Admits("admin", u)
  {
  }

  /** `authorizeRole(required)`: 401 without a token or with one that does not verify,
      404 when the token's user is unknown, 403 when the role decision refuses,
      otherwise the request carries that user. */
  function AuthorizeRole(required: string, c: Credentials): (r: Gate<User>)
    ensures Missing(SplitToken(c.header)) ==> r == Deny(Unauthorized, AccessDenied)
    ensures !Missing(SplitToken(c.header)) && SplitToken(c.header).value !in c.tokens
            ==> r == Deny(Unauthorized, InvalidToken)
    ensures !Missing(SplitToken(c.header)) && SplitToken(c.header).value in c.tokens ==>
              var id := c.tokens[SplitToken(c.header).value];
              && (id !in c.users ==> r == Deny(NotFound, UserNotFound))
              && (id in c.users && !Admits(required, c.users[id]) ==> r == Deny(Forbidden, ForbiddenMessage))
              && (id in c.users && Admits(required, c.users[id]) ==> r == Pass(c.users[id]))
    ensures r.Pass? ==> r.value in c.users.Values && Admits(required, r.value)
  {
    var t := SplitToken(c.header);
    if Missing(t) then Deny(Unauthorized, AccessDenied)
    else if t.value !in c.tokens then Deny(Unauthorized, InvalidToken)
    else
      var id := c.tokens[t.value];
      if id !in c.users then Deny(NotFound, UserNotFound)
      else if !Admits(required, c.users[id]) then Deny(Forbidden, ForbiddenMessage)
      else Pass(c.users[id])
  }

  /** A role-guarded route: `authenticateUser` (mounted for the whole router) runs
      first, then `authorizeRole(required)`. */
  function Guard(required: string, c: Credentials): (r: Gate<User>)
    ensures Authenticate(c).Deny? ==> r == Deny(Authenticate(c).code, Authenticate(c).message)
    ensures Authenticate(c).Pass? ==> r == AuthorizeRole(required, c)
  {
    match Authenticate(c)
    case Deny(code, msg) => Deny(code, msg)
    case Pass(_) => AuthorizeRole(required, c)
  }

  /** With a well-formed `Bearer <token>` header the first guard adds nothing: the
      route answers exactly as `authorizeRole` alone would. */
  lemma GuardOnBearerHeader(required: string, t: string, c: Credentials)
    requires t != "" && ' ' !in t && c.header == Some("Bearer " + t)
    ensures Guard(required, c) == AuthorizeRole(required, c)
  {
    BearerHeaderReadsAlike(t);
  }
}
