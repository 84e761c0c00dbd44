/**
 * The account rules of the API server: username normalisation, registration
 * and login over the users table, and resolving the caller of `/auth/me`
 * from its `Authorization` header. Password hashing, token signing and
 * token decoding are supplied from outside (`hash`, `verify`, `issue`,
 * `decode`).
 */
module Accounts {
  import opened Wrappers
  import opened Text
  import opened Schemas

  const UsernameBlankDetail := "Username cannot be blank"
  const UsernameTaken := "Username already taken"
  const BadCredentials := "Invalid username or password"
  const MissingBearer := "Missing Bearer token"
  const InvalidToken := "Invalid token"
  const UserNotFound := "User not found"
  const BearerPrefix := "Bearer "

  /** A row of the users table. */
  datatype User = User(id: int, username: string, passwordHash: string)

  /** The users table, keyed by (normalised) username. */
  type Users = map<string, User>

  /** A JSON value found in a decoded token's claims (floating-point numbers are not modelled). */
  datatype Claim = ClaimString(s: string) | ClaimInt(i: int) | ClaimBool(b: bool) | ClaimNull | ClaimList | ClaimObject

  type Claims = map<string, Claim>

  // ---------------------------------------------------------------------------
  // Usernames
  // ---------------------------------------------------------------------------

  /** `normalize_username`: `strip()` then `lower()`. */
  function NormalizeUsername(username: string): (r: string)
    ensures |r| <= |username|
    ensures r == [] <==> AllSpace(username, PyWhitespace)
    ensures r != [] ==> !IsSpace(r[0], PyWhitespace) && !IsSpace(r[|r| - 1], PyWhitespace)
    ensures forall k :: 0 <= k < |r| ==> !('A' <= r[k] <= 'Z')
  {
    Lower(Trim(username, PyWhitespace))
  }

  /** What a non-blank normalised name looks like: no whitespace at either end, no upper-case letter. */
  predicate Normalized(name: string) {
    && name != []
    && !IsSpace(name[0], PyWhitespace) && !IsSpace(name[|name| - 1], PyWhitespace)
    && forall k :: 0 <= k < |name| ==> !('A' <= name[k] <= 'Z')
  }

  /** Normalisation leaves a normalised name as it is. */
  lemma NormalizedIsFixed(name: string)
    requires Normalized(name)
    ensures NormalizeUsername(name) == name
  {
    TrimmedIsFixed(name, PyWhitespace);
    assert Lower(name) == name;
  }

  /** Normalising twice is normalising once. */
  lemma NormalizeIdempotent(username: string)
    ensures NormalizeUsername(NormalizeUsername(username)) == NormalizeUsername(username)
  {
    var n := NormalizeUsername(username);
    if n != [] {
      NormalizedIsFixed(n);
    }
  }

  /** Names that differ only in surrounding whitespace and letter case are the same user: " Alice " is "alice". */
  lemma SpacedAliceIsAlice()
    ensures NormalizeUsername(" Alice ") == NormalizeUsername("alice") == "alice"
  {
    TrimmedIsFixed("alice", PyWhitespace);
    assert SkipSpace(" Alice ", 0, PyWhitespace) == 1;
    assert SkipSpaceBack(" Alice ", 1, 7, PyWhitespace) == 6;
    assert Lower("Alice") == "alice";
  }

  /** `require_non_blank_username`: the normalised name, or 422 when nothing but whitespace was given. */
  function RequireNonBlankUsername(username: string): (r: Result<string, HttpError>)
    ensures r.Err? <==> AllSpace(username, PyWhitespace)
    ensures r.Err? ==> r.error == HttpError(422, Message(UsernameBlankDetail))
    ensures r.Ok? ==> r.value == NormalizeUsername(username) && r.value != []
  {
    var normalized := NormalizeUsername(username);
    if normalized == [] then Err(HttpError(422, Message(UsernameBlankDetail))) else Ok(normalized)
  }

  // ---------------------------------------------------------------------------
  // Register and login
  // ---------------------------------------------------------------------------

  /**
   * The checks of `register`, in order: the body's length bounds (on the raw
   * username), the blank check, then 409 when the normalised name is taken.
   * Success yields the name to store.
   */
  function RegisterCheck(users: Users, username: string, password: string): (r: Result<string, HttpError>)
    ensures r.Ok? <==> (&& UsernameLengthOk(username) && PasswordLengthOk(password)
                        && !AllSpace(username, PyWhitespace) && NormalizeUsername(username) !in users)
    ensures r.Ok? ==> r.value == NormalizeUsername(username)
    ensures !(UsernameLengthOk(username) && PasswordLengthOk(password)) ==> r == Err(ValidateRegister(username, password).error)
    ensures UsernameLengthOk(username) && PasswordLengthOk(password) && AllSpace(username, PyWhitespace) ==>
      r == Err(HttpError(422, Message(UsernameBlankDetail)))
    ensures (&& UsernameLengthOk(username) && PasswordLengthOk(password) && !AllSpace(username, PyWhitespace)
             && NormalizeUsername(username) in users) ==> r == Err(HttpError(409, Message(UsernameTaken)))
  {
    match ValidateRegister(username, password)
    case Err(e) => Err(e)
    case Ok(payload) =>
      match RequireNonBlankUsername(payload.username)
      case Err(e) => Err(e)
      case Ok(name) => if name in users then Err(HttpError(409, Message(UsernameTaken))) else Ok(name)
  }

  /** Three spaces meet the 3-character minimum, yet registration still fails, with the blank-username 422. */
  lemma ThreeSpacesPassLengthButAreBlank(users: Users, password: string)
    requires PasswordLengthOk(password)
    ensures ValidateRegister("   ", password).Ok?
    ensures RegisterCheck(users, "   ", password) == Err(HttpError(422, Message(UsernameBlankDetail)))
  {
    assert AllSpace("   ", PyWhitespace);
  }

  /**
   * The length bounds apply to the raw username, so a name that is shorter
   * than the minimum once normalised is still stored: " ab" registers as "ab".
   */
  lemma ShortNameAfterTrim(users: Users, password: string)
    requires "ab" !in users && PasswordLengthOk(password)
    ensures RegisterCheck(users, " ab", password) == Ok("ab")
    ensures |"ab"| < UsernameMinLength
  {
    assert SkipSpace(" ab", 0, PyWhitespace) == 1;
    assert SkipSpaceBack(" ab", 1, 3, PyWhitespace) == 3;
    assert Trim(" ab", PyWhitespace) == " ab"[1..3] == "ab";
    assert Lower("ab") == "ab";
    assert NormalizeUsername(" ab") == "ab";
    assert !AllSpace(" ab", PyWhitespace) && UsernameLengthOk(" ab");
  }

  /** Once a name is registered, every spelling that normalises to it is refused with 409. */
  lemma RegisteredNameIsTaken(users: Users, registered: string, other: string, password: string)
    requires !AllSpace(registered, PyWhitespace) && NormalizeUsername(registered) in users
    requires NormalizeUsername(other) == NormalizeUsername(registered)
    requires UsernameLengthOk(other) && PasswordLengthOk(password)
    ensures RegisterCheck(users, other, password) == Err(HttpError(409, Message(UsernameTaken)))
  {
    assert NormalizeUsername(other) != [];
  }

  /**
   * `login`: 422 for a blank name; otherwise the same 401 whether the user
   * is missing or the password does not verify; on success a token for the
   * stored user with type "bearer".
   */
  function Login(users: Users, username: string, password: string,
                 verify: (string, string) -> bool, issue: (int, string) -> string): (r: Result<TokenResponse, HttpError>)
    ensures AllSpace(username, PyWhitespace) ==> r == Err(HttpError(422, Message(UsernameBlankDetail)))
    ensures r.Ok? <==> (&& !AllSpace(username, PyWhitespace) && NormalizeUsername(username) in users
                        && verify(password, users[NormalizeUsername(username)].passwordHash))
    ensures r.Ok? ==> var u := users[NormalizeUsername(username)];
      r.value.accessToken == issue(u.id, u.username) && r.value.tokenType == "bearer"
    ensures r.Err? && !AllSpace(username, PyWhitespace) ==> r.error == HttpError(401, Message(BadCredentials))
  {
    var payload := ValidateLogin(username, password).value;
    match RequireNonBlankUsername(payload.username)
    case Err(e) => Err(e)
    case Ok(name) =>
      if name !in users || !verify(payload.password, users[name].passwordHash) then
        Err(HttpError(401, Message(BadCredentials)))
      else
        var u := users[name];
        Ok(NewTokenResponse(issue(u.id, u.username)))
  }

  /** A row stored under `name` belongs there: the name is normalised and non-blank, and the id was issued. */
  ghost predicate StoredRow(name: string, u: User, nextId: int) {
    Normalized(name) && u.username == name && 1 <= u.id < nextId
  }

  /** No two users share an id. */
  ghost predicate UniqueIds(users: Users) {
    forall a, b :: a in users && b in users && a != b ==> users[a].id != users[b].id
  }

  /** Every user is stored under its own normalised, non-blank name, and ids are unique and below `nextId`. */
  ghost predicate WellFormed(users: Users, nextId: int) {
    && 1 <= nextId
    && (forall name :: name in users ==> StoredRow(name, users[name], nextId))
    && UniqueIds(users)
  }

  /** Adding a new normalised name with the next id keeps the table well formed. */
  lemma AddKeepsWellFormed(users: Users, nextId: int, name: string, passwordHash: string)
    requires WellFormed(users, nextId)
    requires name !in users && Normalized(name)
    ensures WellFormed(users[name := User(nextId, name, passwordHash)], nextId + 1)
  {
    var users' := users[name := User(nextId, name, passwordHash)];
    forall n | n in users'
      ensures StoredRow(n, users'[n], nextId + 1)
    {
      if n != name {
        assert StoredRow(n, users[n], nextId);
      }
    }
    forall a, b | a in users' && b in users' && a != b
      ensures users'[a].id != users'[b].id
    {
      if a != name && b != name {
        assert users'[a] == users[a] && users'[b] == users[b];
      }
    }
  }

  /** A name `register` accepts is normalised and not yet stored. */
  lemma AcceptedNameIsNew(users: Users, username: string, password: string)
    requires RegisterCheck(users, username, password).Ok?
    ensures var name := RegisterCheck(users, username, password).value;
      Normalized(name) && name !in users
  {
  }

  /** The reply of `register` and the table after it: a new row with the next id when the checks pass. */
  datatype Registration = Registration(reply: Result<MeResponse, HttpError>, users: Users, nextId: int)

  function RegisterStep(users: Users, nextId: int, username: string, password: string, passwordHash: string): (r: Registration)
    ensures r.reply.Ok? <==> RegisterCheck(users, username, password).Ok?
    ensures r.reply.Err? ==> r.users == users && r.nextId == nextId
    ensures r.reply.Ok? ==>
      && r.reply.value.id == nextId && r.nextId == nextId + 1
      && r.reply.value.username in r.users
      && r.users[r.reply.value.username] == User(nextId, r.reply.value.username, passwordHash)
  {
    match RegisterCheck(users, username, password)
    case Err(e) => Registration(Err(e), users, nextId)
    case Ok(name) => Registration(Ok(MeResponse(nextId, name)), users[name := User(nextId, name, passwordHash)], nextId + 1)
  }

  /**
   * `register` keeps the table well formed; when a check fails nothing
   * changes, otherwise exactly one row is added under the normalised name,
   * with the next id and the given hash, and every earlier row is kept.
   */
  lemma RegisterKeepsTable(users: Users, nextId: int, username: string, password: string, passwordHash: string)
    requires WellFormed(users, nextId)
    ensures var step := RegisterStep(users, nextId, username, password, passwordHash);
      && WellFormed(step.users, step.nextId)
      && (RegisterCheck(users, username, password).Err? ==>
            step.reply == Err(RegisterCheck(users, username, password).error) && step.users == users && step.nextId == nextId)
      && (RegisterCheck(users, username, password).Ok? ==>
            var name := NormalizeUsername(username);
            && step.reply == Ok(MeResponse(nextId, name))
            && name !in users
            && step.users.Keys == users.Keys + {name}
            && step.users[name] == User(nextId, name, passwordHash)
            && step.nextId == nextId + 1)
      && (forall name :: name in users ==> name in step.users && step.users[name] == users[name])
  {
    if RegisterCheck(users, username, password).Ok? {
      var name := RegisterCheck(users, username, password).value;
      AcceptedNameIsNew(users, username, password);
      AddKeepsWellFormed(users, nextId, name, passwordHash);
    }
  }

  /** The users table, which `register` extends in place. */
  class UserTable {
    var users: Users
    /** The id the database assigns to the next row. */
    var nextId: int

    ghost predicate Valid()
      reads this
    {
      WellFormed(users, nextId)
    }

    constructor ()
      ensures Valid() && users == map[] && nextId == 1
    {
      users := map[];
      nextId := 1;
    }

    /** `register`: the reply and the new table are those of `RegisterStep`, so `RegisterKeepsTable` describes them. */
    method Register(username: string, password: string, passwordHash: string) returns (r: Result<MeResponse, HttpError>)
      requires Valid()
      modifies this
      ensures Valid()
      ensures Registration(r, users, nextId) == RegisterStep(old(users), old(nextId), username, password, passwordHash)
    {
      RegisterKeepsTable(users, nextId, username, password, passwordHash);
      var check := RegisterCheck(users, username, password);
      if check.Err? {
        return Err(check.error);
      }
      var name := check.value;
      users, nextId, r := users[name := User(nextId, name, passwordHash)], nextId + 1, Ok(MeResponse(nextId, name));
    }
  }

  // ---------------------------------------------------------------------------
  // /auth/me
  // ---------------------------------------------------------------------------

  predicate StartsWith(s: string, prefix: string) {
    |prefix| <= |s| && s[..|prefix|] == prefix
  }

  /** The first index at or after `i` that holds `c` (`|s|` if none does). */
  function IndexOf(s: string, c: char, i: nat): (j: nat)
    requires i <= |s|
    ensures i <= j <= |s|
    ensures forall k :: i <= k < j ==> s[k] != c
    ensures j < |s| ==> s[j] == c
    decreases |s| - i
  {
    if i < |s| && s[i] != c then IndexOf(s, c, i + 1) else i
  }

  /** `s.split(sep, 1)`: the text before the first `sep` and the text after it, or `[s]` without one. */
  function SplitOnce(s: string, sep: char): (parts: seq<string>)
    ensures |parts| == 1 || |parts| == 2
    ensures |parts| == 1 <==> forall k :: 0 <= k < |s| ==> s[k] != sep
    ensures |parts| == 1 ==> parts[0] == s
    ensures |parts| == 2 ==> s == parts[0] + [sep] + parts[1] && forall k :: 0 <= k < |parts[0]| ==> parts[0][k] != sep
  {
    var j := IndexOf(s, sep, 0);
    if j == |s| then [s] else [s[..j], s[j + 1..]]
  }

  /** With the "Bearer " prefix present, the first space is the prefix's own. */
  lemma BearerSplit(authorization: string)
    requires StartsWith(authorization, BearerPrefix)
    ensures SplitOnce(authorization, ' ') == [authorization[..6], authorization[7..]]
  {
    assert authorization[..7] == BearerPrefix;
    assert authorization[6] == ' ';
    assert IndexOf(authorization, ' ', 6) == 6;
    assert authorization[5] == 'r' && IndexOf(authorization, ' ', 5) == 6;
    assert authorization[4] == 'e' && IndexOf(authorization, ' ', 4) == 6;
    assert authorization[3] == 'r' && IndexOf(authorization, ' ', 3) == 6;
    assert authorization[2] == 'a' && IndexOf(authorization, ' ', 2) == 6;
    assert authorization[1] == 'e' && IndexOf(authorization, ' ', 1) == 6;
    assert authorization[0] == 'B' && IndexOf(authorization, ' ', 0) == 6;
  }

  /**
   * The token of an `Authorization` header: 401 unless it starts with the
   * exact, case-sensitive "Bearer "; otherwise the text after the first
   * space, stripped.
   */
  function BearerToken(authorization: string): (r: Result<string, HttpError>)
    ensures r.Err? <==> !StartsWith(authorization, BearerPrefix)
    ensures r.Err? ==> r.error == HttpError(401, Message(MissingBearer))
    ensures r.Ok? ==> r.value == Trim(authorization[|BearerPrefix|..], PyWhitespace)
  {
    if !StartsWith(authorization, BearerPrefix) then Err(HttpError(401, Message(MissingBearer)))
    else
      BearerSplit(authorization);
      Ok(Trim(SplitOnce(authorization, ' ')[1], PyWhitespace))
  }

  /** Python's `int()` accepts digits with single underscores between them. */
  predicate UnderscoredDigits(b: string) {
    && b != [] && IsDigit(b[0]) && IsDigit(b[|b| - 1])
    && forall k :: 0 <= k < |b| ==> IsDigit(b[k]) || (b[k] == '_' && k + 1 < |b| && IsDigit(b[k + 1]))
  }

  /** The digits of `b`, underscores removed. */
  function DigitsOf(b: string): (d: string)
    ensures AllDigits(d)
    ensures AllDigits(b) ==> d == b
  {
    if b == [] then []
    else if IsDigit(b[0]) then [b[0]] + DigitsOf(b[1..])
    else DigitsOf(b[1..])
  }

  /** An integer literal `int` accepts once whitespace is trimmed: an optional sign, then underscored digits. */
  predicate PyIntLiteral(t: string) {
    || UnderscoredDigits(t)
    || (t != [] && (t[0] == '-' || t[0] == '+') && UnderscoredDigits(t[1..]))
  }

  /** The text after an optional leading sign. */
  function Unsigned(t: string): string {
    if t != [] && (t[0] == '-' || t[0] == '+') then t[1..] else t
  }

  /**
   * `int(s)` for a string: surrounding whitespace, an optional sign, then
   * digits (single underscores allowed between them); `None` where Python
   * raises `ValueError`.
   */
  function ParsePyInt(s: string): (r: Option<int>)
    ensures r.Some? <==> PyIntLiteral(Trim(s, PyWhitespace))
    ensures AllDigits(Trim(s, PyWhitespace)) && Trim(s, PyWhitespace) != [] ==>
      r == Some(DecimalValue(Trim(s, PyWhitespace)))
    ensures r.Some? && Trim(s, PyWhitespace)[0] == '-' ==> r.value <= 0
    ensures r.Some? && Trim(s, PyWhitespace)[0] != '-' ==> r.value >= 0
    ensures r.Some? ==> (if r.value < 0 then -r.value else r.value) == DecimalValue(DigitsOf(Unsigned(Trim(s, PyWhitespace))))
  {
    var t := Trim(s, PyWhitespace);
    var signed := t != [] && (t[0] == '-' || t[0] == '+');
    var body := if signed then t[1..] else t;
    if UnderscoredDigits(body) then
      var v: int := DecimalValue(DigitsOf(body));
      Some(if signed && t[0] == '-' then -v else v)
    else None
  }

  /** A '+' sign is accepted: `int("+5") == 5`. */
  lemma PlusSignAccepted()
    ensures ParsePyInt("+5") == Some(5)
  {
    TrimmedIsFixed("+5", PyWhitespace);
    assert "+5"[1..] == "5";
    assert DigitsOf("5") == "5";
  }

  /** Underscores between digits are dropped: `int("1_000") == 1000`. */
  lemma UnderscoresAccepted()
    ensures ParsePyInt("1_000") == Some(1000)
  {
    var t := "1_000";
    TrimmedIsFixed(t, PyWhitespace);
    assert UnderscoredDigits(t) by {
      assert t[1] == '_' && IsDigit(t[2]);
    }
    assert DigitsOf(t) == "1000";
    assert "1000"[..3] == "100" && "100"[..2] == "10" && "10"[..1] == "1";
    assert DecimalValue("1000") == 1000;
  }

  /** A negative number may carry leading zeros and underscores: `int("-0_7") == -7`. */
  lemma NegativeLeadingZero()
    ensures ParsePyInt("-0_7") == Some(-7)
  {
    var t := "-0_7";
    TrimmedIsFixed(t, PyWhitespace);
    assert t[1..] == "0_7";
    assert UnderscoredDigits("0_7") by {
      assert "0_7"[1] == '_' && IsDigit("0_7"[2]);
    }
    assert DigitsOf("0_7") == "07";
    assert "07"[..1] == "0";
    assert DecimalValue("07") == 7;
  }

  /** Two underscores in a row are a `ValueError`. */
  lemma DoubleUnderscoreRejected()
    ensures ParsePyInt("1__0") == None
  {
    TrimmedIsFixed("1__0", PyWhitespace);
    assert !UnderscoredDigits("1__0") by {
      assert "1__0"[1] == '_' && !IsDigit("1__0"[2]);
    }
  }

  /** Parsing what `str(n)` renders gives `n` back: the `sub` claim written at login reads back as the user id. */
  lemma ParseRendered(n: int)
    ensures ParsePyInt(IntToDecimal(n)) == Some(n)
  {
    var s := IntToDecimal(n);
    var m: nat := if n < 0 then -n else n;
    var digits := NatToDecimal(m);
    TrimmedIsFixed(s, PyWhitespace);
    DecimalRoundTrip(m);
    if n < 0 {
      assert s[1..] == digits;
    }
  }

  /**
   * `int(payload["sub"])`: the user id a decoded token names, or `None`
   * where Python raises `KeyError` (no claim), `TypeError` (null, list,
   * object) or `ValueError` (not an integer string).
   */
  function SubjectId(claims: Claims): (r: Option<int>)
    ensures "sub" !in claims ==> r.None?
    ensures "sub" in claims && claims["sub"].ClaimString? ==> r == ParsePyInt(claims["sub"].s)
    ensures "sub" in claims && claims["sub"].ClaimInt? ==> r == Some(claims["sub"].i)
    ensures "sub" in claims && claims["sub"].ClaimBool? ==> r == Some(if claims["sub"].b then 1 else 0)
    ensures "sub" in claims && (claims["sub"].ClaimNull? || claims["sub"].ClaimList? || claims["sub"].ClaimObject?) ==> r.None?
  {
    if "sub" !in claims then None
    else
      match claims["sub"]
      case ClaimString(s) => ParsePyInt(s)
      case ClaimInt(i) => Some(i)
      case ClaimBool(b) => Some(if b then 1 else 0)
      case ClaimNull => None
      case ClaimList => None
      case ClaimObject => None
  }

  /** Some user in the table has id `id`. */
  ghost predicate HasUserId(users: Users, id: int) {
    exists name :: name in users && users[name].id == id
  }

  /** The user id named by a bearer token, when `decode_token` accepts it and its `sub` is an integer. */
  function TokenSubject(token: string, decode: string -> Option<Claims>): (r: Option<int>)
    ensures decode(token).None? ==> r.None?
    ensures r.Some? ==> decode(token).Some? && "sub" in decode(token).value
  {
    match decode(token)
    case None => None
    case Some(claims) => SubjectId(claims)
  }

  /** A token whose `sub` claim is `str(id)`, as login writes it, names `id`. */
  lemma TokenNamesRenderedId(token: string, decode: string -> Option<Claims>, id: int)
    requires decode(token).Some? && "sub" in decode(token).value
    requires decode(token).value["sub"] == ClaimString(IntToDecimal(id))
    ensures TokenSubject(token, decode) == Some(id)
  {
    ParseRendered(id);
  }

  /**
   * `me`: 401 "Missing Bearer token" without the exact prefix; 401 "Invalid
   * token" when the token does not decode or its `sub` is not an integer;
   * 401 "User not found" when no user has that id; otherwise that user's id
   * and name.
   */
  ghost function Me(users: Users, authorization: string, decode: string -> Option<Claims>): (r: Result<MeResponse, HttpError>)
    ensures !StartsWith(authorization, BearerPrefix) ==> r == Err(HttpError(401, Message(MissingBearer)))
    ensures StartsWith(authorization, BearerPrefix) ==>
      var subject := TokenSubject(BearerToken(authorization).value, decode);
      && (subject.None? ==> r == Err(HttpError(401, Message(InvalidToken))))
      && (subject.Some? && !HasUserId(users, subject.value) ==> r == Err(HttpError(401, Message(UserNotFound))))
      && (subject.Some? && HasUserId(users, subject.value) ==>
            r.Ok? && r.value.id == subject.value &&
            exists name :: name in users && users[name].id == subject.value && r.value.username == users[name].username)
  {
    match BearerToken(authorization)
    case Err(e) => Err(e)
    case Ok(token) =>
      match TokenSubject(token, decode)
      case None => Err(HttpError(401, Message(InvalidToken)))
      case Some(userId) =>
        if !HasUserId(users, userId) then Err(HttpError(401, Message(UserNotFound)))
        else
          var name :| name in users && users[name].id == userId;
          Ok(MeResponse(users[name].id, users[name].username))
  }

  /** A bearer token whose subject is a stored user's id resolves to that user. */
  lemma MeOfSubject(users: Users, name: string, token: string, decode: string -> Option<Claims>)
    requires UniqueIds(users) && name in users
    requires token != [] ==> !IsSpace(token[0], PyWhitespace) && !IsSpace(token[|token| - 1], PyWhitespace)
    requires TokenSubject(token, decode) == Some(users[name].id)
    ensures Me(users, BearerPrefix + token, decode) == Ok(MeResponse(users[name].id, users[name].username))
  {
    var header := BearerPrefix + token;
    assert header[..|BearerPrefix|] == BearerPrefix;
    assert header[|BearerPrefix|..] == token;
    TrimmedIsFixed(token, PyWhitespace);
    assert BearerToken(header) == Ok(token);
    assert HasUserId(users, users[name].id);
    var r := Me(users, header, decode);
    var other :| other in users && users[other].id == users[name].id && r.value.username == users[other].username;
    assert other == name;
  }

  /**
   * Logging in with a stored name and a password that verifies succeeds, and
   * the token it issues identifies that user at `/auth/me`, given that
   * decoding the issued token yields the `sub` claim `str(id)` that token
   * creation writes, and that the token carries no surrounding whitespace.
   */
  lemma LoginThenMe(users: Users, username: string, password: string,
                    verify: (string, string) -> bool, issue: (int, string) -> string, decode: string -> Option<Claims>)
    requires UniqueIds(users)
    requires !AllSpace(username, PyWhitespace) && NormalizeUsername(username) in users
    requires var u := users[NormalizeUsername(username)];
      var token := issue(u.id, u.username);
      && verify(password, u.passwordHash)
      && (token != [] ==> !IsSpace(token[0], PyWhitespace) && !IsSpace(token[|token| - 1], PyWhitespace))
      && decode(token).Some? && "sub" in decode(token).value
      && decode(token).value["sub"] == ClaimString(IntToDecimal(u.id))
    ensures var login := Login(users, username, password, verify, issue);
      var u := users[NormalizeUsername(username)];
      && login.Ok?
      && Me(users, BearerPrefix + login.value.accessToken, decode) == Ok(MeResponse(u.id, u.username))
  {
    var name := NormalizeUsername(username);
    var token := Login(users, username, password, verify, issue).value.accessToken;
    assert token == issue(users[name].id, users[name].username);
    ParseRendered(users[name].id);
    assert TokenSubject(token, decode) == Some(users[name].id);
    MeOfSubject(users, name, token, decode);
  }
}
