/** Dashboard tokens and their sessions (core/auth.py). */
module AuthTokens {
  import opened Wrappers
  import opened Base64Url

  datatype Payload = Payload(userId: string, exp: real, jti: string)

  datatype User = User(userId: string, username: string, displayName: string, role: string, active: bool)

  datatype Session = Session(userId: string, expiresAt: real)

  /** The library functions a token goes through: JSON, UTF-8 and the HMAC as hex digits. */
  datatype Library = Library(
    dumps: Payload -> string, loads: string -> Option<Payload>,
    utf8: string -> seq<Byte>, fromUtf8: seq<Byte> -> Option<string>,
    sign: string -> string)

  predicate IsAscii(s: string) {
    forall i :: 0 <= i < |s| ==> s[i] <= '\U{7f}'
  }

  ghost predicate Lawful(lib: Library) {
    && (forall p :: lib.loads(lib.dumps(p)) == Some(p))
    && (forall t :: lib.fromUtf8(lib.utf8(t)) == Some(t))
    && (forall t :: ':' !in lib.sign(t) && IsAscii(lib.sign(t)))
  }

  function Signature(lib: Library, p: Payload): string {
    lib.sign(lib.dumps(p))
  }

  function RawToken(lib: Library, p: Payload): string {
    lib.dumps(p) + ":" + Signature(lib, p)
  }

  function TokenOf(lib: Library, p: Payload): string {
    Strip(Encode(lib.utf8(RawToken(lib, p))))
  }

  /** The text of a token: itself in the old format, decoded in the new one. */
  function RawOf(lib: Library, token: string): Option<string> {
    if ':' in token then Some(token)
    else if !IsAscii(token) then None
    else
      match Decoded(Pad(token))
      case None => None
      case Some(bytes) => lib.fromUtf8(bytes)
  }

  /** `rsplit(":", 1)` on a text with a colon. */
  function SplitAtLastColon(s: string): (string, string)
    requires ':' in s
  {
    if s[|s| - 1] == ':' then (s[..|s| - 1], "")
    else
      var (left, right) := SplitAtLastColon(s[..|s| - 1]);
      (left, right + [s[|s| - 1]])
  }

  /** Payload text and signature of a token. */
  function Parse(lib: Library, token: string): Option<(string, string)> {
    match RawOf(lib, token)
    case None => None
    case Some(raw) => if ':' in raw then Some(SplitAtLastColon(raw)) else None
  }

  datatype State = State(users: map<string, User>, sessions: map<string, Session>)

  /** `Raised` is the TypeError of comparing digests with a text that is not ASCII. */
  datatype Verdict = Accepted(user: User) | Rejected | Raised

  function UserOf(s: State, userId: string): Verdict {
    if userId in s.users then Accepted(s.users[userId]) else Rejected
  }

  /** What verifying a token gives; the clock is read for the payload and for the row. */
  function Verified(lib: Library, s: State, token: string, now1: real, now2: real): Verdict {
    match Parse(lib, token)
    case None => Rejected
    case Some((text, signature)) =>
      match lib.loads(text)
      case None => Rejected
      case Some(p) =>
        if p.exp != 0.0 && p.exp < now1 then Rejected
        else if !IsAscii(signature) then Raised
        else if signature != lib.sign(text) then Rejected
        else if signature !in s.sessions then Rejected
        else if s.sessions[signature].expiresAt != 0.0 && s.sessions[signature].expiresAt <= now2 then Rejected
        else UserOf(s, p.userId)
  }

  datatype Op =
    | Generate(payload: Payload)
    | Logout(token: string)
    | Revoke(signature: string)
    | PutUser(user: User)
    | DropUser(userId: string)

  function Step(lib: Library, s: State, op: Op): State {
    match op
    case Generate(p) => s.(sessions := s.sessions[Signature(lib, p) := Session(p.userId, p.exp)])
    case Logout(token) =>
      (match Parse(lib, token)
       case None => s
       case Some((_, signature)) => s.(sessions := s.sessions - {signature}))
    case Revoke(signature) => s.(sessions := s.sessions - {signature})
    case PutUser(u) => s.(users := s.users[u.userId := u])
    case DropUser(u) =>
      State(s.users - {u}, map t | t in s.sessions && s.sessions[t].userId != u :: s.sessions[t])
  }

  /** The expiry of a new token: hours from now, or 0 for never. */
  function Expiry(hours: real, now: real): real {
    if hours > 0.0 then now + hours * 3600.0 else 0.0
  }

  class AuthManager {
    const lib: Library
    var users: map<string, User>
    var sessions: map<string, Session>

    function Abs(): State
      reads this
    {
      State(users, sessions)
    }

    constructor (lib: Library)
      ensures this.lib == lib && Abs() == State(map[], map[])
    {
      this.lib := lib;
      users, sessions := map[], map[];
    }

    method GenerateToken(userId: string, hours: real, now: real, jti: string) returns (token: string)
      modifies this
      ensures var p := Payload(userId, Expiry(hours, now), jti);
              token == TokenOf(lib, p) && Abs() == Step(lib, old(Abs()), Generate(p))
    {
      var expires := 0.0;
      if hours > 0.0 {
        expires := now + hours * 3600.0;
      }
      var payload := Payload(userId, expires, jti);
      var text := lib.dumps(payload);
      var signature := lib.sign(text);
      var rawToken := text + ":" + signature;
      assert rawToken == RawToken(lib, payload);
      token := Strip(Encode(lib.utf8(rawToken)));
      sessions := sessions[signature := Session(userId, expires)];
    }

    /** The text of a token, as both `verify_token` and `logout` recover it. */
    method Unpack(token: string) returns (r: Option<(string, string)>)
      ensures r == Parse(lib, token)
    {
      var raw := token;
      if ':' !in token {
        if !IsAscii(token) {
          return None;
        }
        var padded := if |token| % 4 != 0 then token + Repeat('=', 4 - |token| % 4) else token;
        var bytes := Decode(padded);
        if bytes.None? || lib.fromUtf8(bytes.value).None? {
          return None;
        }
        raw := lib.fromUtf8(bytes.value).value;
      }
      if ':' !in raw {
        return None;
      }
      return Some(SplitAtLastColon(raw));
    }

    method VerifyToken(token: string, now1: real, now2: real) returns (r: Verdict)
      ensures r == Verified(lib, Abs(), token, now1, now2)
    {
      var parts := Unpack(token);
      if parts.None? {
        return Rejected;
      }
      var (text, signature) := parts.value;
      var payload := lib.loads(text);
      if payload.None? {
        return Rejected;
      }
      if payload.value.exp != 0.0 && payload.value.exp < now1 {
        return Rejected;
      }
      if !IsAscii(signature) {
        return Raised;
      }
      if signature != lib.sign(text) {
        return Rejected;
      }
      if signature !in sessions || !(sessions[signature].expiresAt == 0.0 || sessions[signature].expiresAt > now2) {
        return Rejected;
      }
      var userId := payload.value.userId;
      return if userId in users then Accepted(users[userId]) else Rejected;
    }

    method LogOut(token: string)
      modifies this
      ensures Abs() == Step(lib, old(Abs()), Logout(token))
    {
      var parts := Unpack(token);
      if parts.Some? {
        sessions := sessions - {parts.value.1};
      }
    }

    method RevokeSession(signature: string)
      modifies this
      ensures Abs() == Step(lib, old(Abs()), Revoke(signature))
    {
      sessions := sessions - {signature};
    }
  }

  // ---------------------------------------------------------------------------
  // Theorems
  // ---------------------------------------------------------------------------

  lemma {:induction false} SplitUndoesJoin(text: string, signature: string)
    requires ':' !in signature
    ensures SplitAtLastColon(text + ":" + signature) == (text, signature)
  {
    var s := text + ":" + signature;
    assert s[|text|] == ':';
    if signature == "" {
      assert s[..|s| - 1] == text;
    } else {
      var shorter := signature[..|signature| - 1];
      SplitUndoesJoin(text, shorter);
      assert s[..|s| - 1] == text + ":" + shorter;
      assert shorter + [signature[|signature| - 1]] == signature;
    }
  }

  lemma CharsAreAscii(bs: seq<Byte>, i: nat)
    requires i < |Body(bs)|
    ensures Body(bs)[i] <= '\U{7f}'
  {
    assert Body(bs)[i] == ToChar(Sextets(bs)[i]);
  }

  /** A generated token unpacks to exactly its payload text and signature. */
  lemma GeneratedTokenParses(lib: Library, p: Payload)
    requires Lawful(lib)
    ensures RawOf(lib, TokenOf(lib, p)) == Some(RawToken(lib, p))
    ensures Parse(lib, TokenOf(lib, p)) == Some((lib.dumps(p), Signature(lib, p)))
  {
    var bs := lib.utf8(RawToken(lib, p));
    RoundTrip(bs);
    PadUndoesStrip(bs);
    forall i | 0 <= i < |TokenOf(lib, p)| ensures TokenOf(lib, p)[i] <= '\U{7f}' {
      CharsAreAscii(bs, i);
    }
    SplitUndoesJoin(lib.dumps(p), Signature(lib, p));
    assert RawToken(lib, p)[|lib.dumps(p)|] == ':';
  }

  function Run(lib: Library, ops: seq<Op>): State {
    if ops == [] then State(map[], map[])
    else Step(lib, Run(lib, ops[..|ops| - 1]), ops[|ops| - 1])
  }

  /** Every session row belongs to a generated token and carries its expiry. */
  lemma {:induction false} RowsComeFromTokens(lib: Library, ops: seq<Op>, signature: string) returns (p: Payload)
    requires signature in Run(lib, ops).sessions
    ensures Generate(p) in ops && signature == Signature(lib, p)
    ensures Run(lib, ops).sessions[signature] == Session(p.userId, p.exp)
  {
    var before, op := Run(lib, ops[..|ops| - 1]), ops[|ops| - 1];
    if op.Generate? && signature == Signature(lib, op.payload) {
      p := op.payload;
    } else {
      p := RowsComeFromTokens(lib, ops[..|ops| - 1], signature);
    }
  }

  /** No token generated in the run has the signature of another text than its own. */
  ghost predicate NoCollision(lib: Library, ops: seq<Op>, text: string) {
    forall q :: Generate(q) in ops && Signature(lib, q) == lib.sign(text) ==> lib.dumps(q) == text
  }

  /** In every run a generated token is worth its user exactly while its expiry is 0 or in
      the future, its session row exists and the user exists. */
  lemma GeneratedTokenVerifies(lib: Library, ops: seq<Op>, p: Payload, now1: real, now2: real)
    requires Lawful(lib) && NoCollision(lib, ops, lib.dumps(p)) && now1 <= now2
    ensures var s := Run(lib, ops);
            Verified(lib, s, TokenOf(lib, p), now1, now2) ==
              if (p.exp == 0.0 || now2 < p.exp) && Signature(lib, p) in s.sessions then UserOf(s, p.userId)
              else Rejected
  {
    GeneratedTokenParses(lib, p);
    if Signature(lib, p) in Run(lib, ops).sessions {
      var q := RowsComeFromTokens(lib, ops, Signature(lib, p));
      assert lib.loads(lib.dumps(q)) == Some(q) && lib.loads(lib.dumps(p)) == Some(p);
    }
  }

  /** Only issued tokens verify: the text of the token is that of a generated one. */
  lemma OnlyIssuedTokensVerify(lib: Library, ops: seq<Op>, token: string, now1: real, now2: real) returns (p: Payload)
    requires Verified(lib, Run(lib, ops), token, now1, now2).Accepted?
    requires NoCollision(lib, ops, Parse(lib, token).value.0)
    ensures Generate(p) in ops && RawOf(lib, token) == Some(RawToken(lib, p))
  {
    var (text, signature) := Parse(lib, token).value;
    p := RowsComeFromTokens(lib, ops, signature);
    assert text == lib.dumps(p);
    JoinUndoesSplit(RawOf(lib, token).value);
  }

  lemma {:induction false} JoinUndoesSplit(s: string)
    requires ':' in s
    ensures SplitAtLastColon(s).0 + ":" + SplitAtLastColon(s).1 == s
  {
    if s[|s| - 1] != ':' {
      JoinUndoesSplit(s[..|s| - 1]);
    }
  }

  /** Logging out with a generated token ends its session and leaves every token with another
      signature as it was. */
  lemma LogoutEndsOneSession(lib: Library, s: State, p: Payload, q: Payload, now1: real, now2: real)
    requires Lawful(lib)
    ensures var s' := Step(lib, s, Logout(TokenOf(lib, p)));
            && Verified(lib, s', TokenOf(lib, p), now1, now2) == Rejected
            && (Signature(lib, q) != Signature(lib, p) ==>
                  Verified(lib, s', TokenOf(lib, q), now1, now2) == Verified(lib, s, TokenOf(lib, q), now1, now2))
  {
    GeneratedTokenParses(lib, p);
    VerdictOfGenerated(lib, Step(lib, s, Logout(TokenOf(lib, p))), p, now1, now2);
    VerdictOfGenerated(lib, Step(lib, s, Logout(TokenOf(lib, p))), q, now1, now2);
    VerdictOfGenerated(lib, s, q, now1, now2);
  }

  /** A generated token is judged by its own expiry and its row. */
  lemma VerdictOfGenerated(lib: Library, s: State, p: Payload, now1: real, now2: real)
    requires Lawful(lib)
    ensures var row := Lookup(s.sessions, Signature(lib, p));
            Verified(lib, s, TokenOf(lib, p), now1, now2) ==
              if (p.exp != 0.0 && p.exp < now1) || row.None?
                 || (row.value.expiresAt != 0.0 && row.value.expiresAt <= now2)
              then Rejected else UserOf(s, p.userId)
  {
    GeneratedTokenParses(lib, p);
    assert lib.loads(lib.dumps(p)) == Some(p);
  }

  /** No generated token makes verification raise. */
  lemma GeneratedTokensDoNotRaise(lib: Library, s: State, p: Payload, now1: real, now2: real)
    requires Lawful(lib)
    ensures !Verified(lib, s, TokenOf(lib, p), now1, now2).Raised?
  {
    GeneratedTokenParses(lib, p);
  }

  /** A token just generated is good: for ever when the hours are 0 or negative, and otherwise
      for exactly that many hours. */
  lemma FreshTokenIsGood(lib: Library, s: State, userId: string, hours: real, now: real, jti: string,
      now1: real, now2: real)
    requires Lawful(lib) && 0.0 <= now && now1 <= now2
    ensures var p := Payload(userId, Expiry(hours, now), jti);
            Verified(lib, Step(lib, s, Generate(p)), TokenOf(lib, p), now1, now2) ==
              if hours <= 0.0 || now2 < now + hours * 3600.0 then UserOf(s, userId) else Rejected
  {
    var p := Payload(userId, Expiry(hours, now), jti);
    VerdictOfGenerated(lib, Step(lib, s, Generate(p)), p, now1, now2);
  }

  /** Generating a token leaves every token with another signature as it was. */
  lemma GeneratingTouchesOneSession(lib: Library, s: State, p: Payload, q: Payload, now1: real, now2: real)
    requires Lawful(lib) && Signature(lib, q) != Signature(lib, p)
    ensures Verified(lib, Step(lib, s, Generate(p)), TokenOf(lib, q), now1, now2)
         == Verified(lib, s, TokenOf(lib, q), now1, now2)
  {
    VerdictOfGenerated(lib, s, q, now1, now2);
    VerdictOfGenerated(lib, Step(lib, s, Generate(p)), q, now1, now2);
  }

  lemma OldFormatParses(lib: Library, p: Payload)
    requires Lawful(lib)
    ensures Parse(lib, RawToken(lib, p)) == Some((lib.dumps(p), Signature(lib, p)))
  {
    var raw := RawToken(lib, p);
    SplitUndoesJoin(lib.dumps(p), Signature(lib, p));
    assert raw[|lib.dumps(p)|] == ':';
    assert RawOf(lib, raw) == Some(raw);
  }

  /** Only what a token parses to matters. */
  lemma SameParseSameEffect(lib: Library, s: State, token: string, other: string, now1: real, now2: real)
    requires Parse(lib, token) == Parse(lib, other)
    ensures Verified(lib, s, token, now1, now2) == Verified(lib, s, other, now1, now2)
    ensures Step(lib, s, Logout(token)) == Step(lib, s, Logout(other))
  {
  }

  /** A token in the old format, its text without the encoding, is judged as the token. */
  lemma OldFormatIsJudgedAlike(lib: Library, s: State, p: Payload, now1: real, now2: real)
    requires Lawful(lib)
    ensures Verified(lib, s, RawToken(lib, p), now1, now2) == Verified(lib, s, TokenOf(lib, p), now1, now2)
    ensures Step(lib, s, Logout(RawToken(lib, p))) == Step(lib, s, Logout(TokenOf(lib, p)))
  {
    GeneratedTokenParses(lib, p);
    OldFormatParses(lib, p);
    SameParseSameEffect(lib, s, RawToken(lib, p), TokenOf(lib, p), now1, now2);
  }

  /** A text in the old format with a good payload, not expired, and a signature that is not
      ASCII makes verification raise. */
  lemma ForeignSignatureRaises(lib: Library, s: State, text: string, p: Payload, signature: string,
      now1: real, now2: real)
    requires lib.loads(text) == Some(p) && (p.exp == 0.0 || now1 <= p.exp)
    requires ':' !in signature && !IsAscii(signature)
    ensures Verified(lib, s, text + ":" + signature, now1, now2) == Raised
  {
    var token := text + ":" + signature;
    SplitUndoesJoin(text, signature);
    assert token[|text|] == ':';
    assert RawOf(lib, token) == Some(token);
  }

  /** Deleting a user ends its sessions and leaves the other users and sessions alone. */
  lemma DroppingAUser(lib: Library, s: State, userId: string, signature: string, other: string)
    ensures var s' := Step(lib, s, DropUser(userId));
            && Lookup(s'.users, other) == (if other == userId then None else Lookup(s.users, other))
            && Lookup(s'.sessions, signature) ==
                 if signature in s.sessions && s.sessions[signature].userId == userId then None
                 else Lookup(s.sessions, signature)
  {
  }

  /** Revoking a signature is logging out with its token. */
  lemma RevokingIsLoggingOut(lib: Library, s: State, p: Payload)
    requires Lawful(lib)
    ensures Step(lib, s, Revoke(Signature(lib, p))) == Step(lib, s, Logout(TokenOf(lib, p)))
  {
    GeneratedTokenParses(lib, p);
  }
}
