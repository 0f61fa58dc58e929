/** base64url, section 5 of RFC 4648, without padding. */
module Base64Url {
  import opened Wrappers

  newtype Byte = x: int | 0 <= x < 256
  newtype Sextet = x: int | 0 <= x < 64

  function Symbol(s: Sextet): char {
    var n := s as int;
    if n < 26 then 'A' + n as char
    else if n < 52 then 'a' + (n - 26) as char
    else if n < 62 then '0' + (n - 52) as char
    else if n == 62 then '-'
    else '_'
  }

  /** Both alphabets of RFC 4648 are read. */
  function Value(c: char): Option<Sextet> {
    if 'A' <= c <= 'Z' then Some((c as int - 'A' as int) as Sextet)
    else if 'a' <= c <= 'z' then Some((c as int - 'a' as int + 26) as Sextet)
    else if '0' <= c <= '9' then Some((c as int - '0' as int + 52) as Sextet)
    else if c == '-' || c == '+' then Some(62)
    else if c == '_' || c == '/' then Some(63)
    else None
  }

  function Symbols(ss: seq<Sextet>): (r: string)
    ensures |r| == |ss| && forall i :: 0 <= i < |r| ==> r[i] == Symbol(ss[i])
  {
    seq(|ss|, i requires 0 <= i < |ss| => Symbol(ss[i]))
  }

  /** Characters of neither alphabet are skipped. */
  function ValuesOf(s: string): seq<Sextet> {
    if s == "" then []
    else (if Value(s[0]).Some? then [Value(s[0]).value] else []) + ValuesOf(s[1..])
  }

  function Pack(b: seq<Byte>): seq<Sextet> {
    if b == [] then []
    else
      var x := b[0] as int;
      if |b| == 1 then [(x / 4) as Sextet, (x % 4 * 16) as Sextet]
      else
        var y := b[1] as int;
        if |b| == 2 then [(x / 4) as Sextet, (x % 4 * 16 + y / 16) as Sextet, (y % 16 * 4) as Sextet]
        else
          var z := b[2] as int;
          [(x / 4) as Sextet, (x % 4 * 16 + y / 16) as Sextet, (y % 16 * 4 + z / 64) as Sextet, (z % 64) as Sextet]
          + Pack(b[3..])
  }

  function Unpack(s: seq<Sextet>): seq<Byte> {
    if |s| < 2 then []
    else
      var x := (s[0] as int * 4 + s[1] as int / 16) as Byte;
      if |s| == 2 then [x]
      else
        var y := (s[1] as int % 16 * 16 + s[2] as int / 4) as Byte;
        if |s| == 3 then [x, y]
        else [x, y, (s[2] as int % 4 * 64 + s[3] as int) as Byte] + Unpack(s[4..])
  }

  function Encode(b: seq<Byte>): string { Symbols(Pack(b)) }

  function Decode(s: string): seq<Byte> { Unpack(ValuesOf(s)) }

  lemma {:induction false} UnpackPack(b: seq<Byte>)
    ensures Unpack(Pack(b)) == b
  {
    if |b| >= 3 {
      UnpackPack(b[3..]);
      var p := Pack(b);
      assert p[4..] == Pack(b[3..]);
      assert b == [b[0], b[1], b[2]] + b[3..];
    }
  }

  lemma ValueOfSymbol(s: Sextet)
    ensures Value(Symbol(s)) == Some(s)
  {
  }

  lemma {:induction false} ValuesOfSymbols(ss: seq<Sextet>)
    ensures ValuesOf(Symbols(ss)) == ss
  {
    if ss != [] {
      ValueOfSymbol(ss[0]);
      ValuesOfSymbols(ss[1..]);
      assert Symbols(ss)[1..] == Symbols(ss[1..]);
    }
  }

  lemma DecodeEncode(b: seq<Byte>)
    ensures Decode(Encode(b)) == b
  {
    ValuesOfSymbols(Pack(b));
    UnpackPack(b);
  }

  /** What is encoded holds no dot, and is empty for no bytes only. */
  lemma EncodedIsOnePart(b: seq<Byte>)
    ensures '.' !in Encode(b) && (Encode(b) == "" <==> b == [])
  {
    forall s: Sextet ensures Symbol(s) != '.' { ValueOfSymbol(s); }
  }

  /** The test vectors of section 10 of RFC 4648, without their padding, and the last two symbols of section 5. */
  lemma KnownEncodings()
    ensures Encode([102]) == "Zg" && Encode([102, 111]) == "Zm8" && Encode([102, 111, 111]) == "Zm9v"
    ensures Encode([102, 111, 111, 98, 97, 114]) == "Zm9vYmFy"
    ensures Encode([251, 255, 191]) == "-_-_"
  {
    assert Pack([102, 111, 111, 98, 97, 114][3..]) == [24, 38, 5, 50];
    assert Pack([102, 111, 111, 98, 97, 114]) == [25, 38, 61, 47, 24, 38, 5, 50];
    assert Pack([251, 255, 191][3..]) == [];
    assert Pack([251, 255, 191]) == [62, 63, 62, 63];
    assert Pack([102, 111, 111][3..]) == [];
  }
}

/** Capability tokens for one session or one page. */
module SessionToken {
  import opened Wrappers
  import opened JsString
  import opened Base64Url
  import Decimal

  datatype Purpose = Progress | Preview

  function Name(p: Purpose): string { if p == Progress then "progress" else "preview" }

  datatype Reason = MissingToken | MissingSecret | InvalidPayload | Expired | InvalidSignature | WrongPurpose

  datatype Verification = Accepted(tenant: string, subject: string) | Rejected(reason: Reason)

  /** The keyed hash, UTF-8, and Number() with a finite result and back: parameters. */
  datatype Env = Env(
    mac: (string, string) -> seq<Byte>,
    utf8: string -> seq<Byte>, text: seq<Byte> -> string,
    number: string -> Option<real>, show: real -> string)

  function Message(purpose: string, expires: string, nonce: string, tenant: string, subject: string): string {
    purpose + "." + expires + "." + nonce + "." + tenant + "." + subject
  }

  function Sign(env: Env, secret: string, message: string): string { Encode(env.mac(secret, message)) }

  function Mint(
    env: Env, secret: string, p: Purpose, expiresAt: nat, random: seq<Byte>, tenant: string, subject: string): string
  {
    var message := Message(Name(p), env.show(expiresAt as real), Encode(random), tenant, subject);
    Encode(env.utf8(message + "." + Sign(env, secret, message)))
  }

  function Verify(env: Env, token: string, secret: string, p: Purpose, now: int): Verification {
    if token == "" then Rejected(MissingToken)
    else if secret == "" then Rejected(MissingSecret)
    else
      var parts := Split(env.text(Decode(token)), '.');
      if |parts| != 6 then Rejected(InvalidPayload)
      else
        var expiresAt := env.number(parts[1]);
        if expiresAt.None? || parts[2] == "" || parts[3] == "" || parts[4] == "" || parts[5] == "" then
          Rejected(InvalidPayload)
        else if parts[0] != Name(p) then Rejected(WrongPurpose)
        else if now as real > expiresAt.value then Rejected(Expired)
        else
          var message := Message(parts[0], env.show(expiresAt.value), parts[2], parts[3], parts[4]);
          if parts[5] != Sign(env, secret, message) then Rejected(InvalidSignature)
          else Accepted(parts[3], parts[4])
  }

  // ----- Messages and their parts -----

  /** How many parts `s` splits into. */
  function Count(s: string): nat { |Split(s, '.')| }

  lemma {:induction false} CountConcat(a: string, b: string)
    ensures Count(a + b) == Count(a) + Count(b) - 1
  {
    if a == "" {
      assert a + b == b;
    } else {
      assert (a + b)[1..] == a[1..] + b;
      CountConcat(a[1..], b);
    }
  }

  lemma CountDotted(a: string, b: string)
    ensures Count(a + "." + b) == Count(a) + Count(b)
  {
    CountConcat(a, ".");
    CountConcat(a + ".", b);
    assert "."[1..] == "";
  }

  lemma {:induction false} CountIsOneIff(s: string)
    ensures Count(s) == 1 <==> '.' !in s
  {
    if s != "" { CountIsOneIff(s[1..]); }
  }

  lemma MessageCount(purpose: string, expires: string, nonce: string, tenant: string, subject: string)
    ensures Count(Message(purpose, expires, nonce, tenant, subject))
            == Count(purpose) + Count(expires) + Count(nonce) + Count(tenant) + Count(subject)
  {
    CountDotted(purpose, expires);
    CountDotted(purpose + "." + expires, nonce);
    CountDotted(purpose + "." + expires + "." + nonce, tenant);
    CountDotted(purpose + "." + expires + "." + nonce + "." + tenant, subject);
  }

  lemma MessageSplits(purpose: string, expires: string, nonce: string, tenant: string, subject: string)
    requires '.' !in purpose && '.' !in expires && '.' !in nonce && '.' !in tenant && '.' !in subject
    ensures Split(Message(purpose, expires, nonce, tenant, subject), '.') == [purpose, expires, nonce, tenant, subject]
  {
    SplitFree(purpose, '.');
    SplitConcatFree(purpose, expires);
    SplitConcatFree(purpose + "." + expires, nonce);
    SplitConcatFree(purpose + "." + expires + "." + nonce, tenant);
    SplitConcatFree(purpose + "." + expires + "." + nonce + "." + tenant, subject);
  }

  lemma {:induction false} SplitConcatFree(a: string, b: string)
    requires '.' !in b
    ensures Split(a + "." + b, '.') == Split(a, '.') + [b]
  {
    if a == "" {
      SplitAtFirst("", b, '.');
      SplitFree(b, '.');
    } else {
      assert (a + "." + b)[1..] == a[1..] + "." + b;
      SplitConcatFree(a[1..], b);
    }
  }

  lemma NamesAreOnePart(p: Purpose)
    ensures '.' !in Name(p)
    ensures Name(p) == Name(Progress) <==> p == Progress
  {
  }

  // ----- Minting and verifying -----

  /** UTF-8 reads back, digests are not empty, and this expiry prints and parses as itself. */
  ghost predicate Faithful(env: Env, expiresAt: nat) {
    && (forall s :: env.text(env.utf8(s)) == s) && env.text([]) == ""
    && (forall s, m :: env.mac(s, m) != [])
    && env.show(expiresAt as real) == Decimal.Show(expiresAt)
    && env.number(Decimal.Show(expiresAt)) == Some(expiresAt as real)
  }

  predicate IsField(s: string) { s != "" && '.' !in s }

  lemma ShowIsOnePart(n: nat)
    ensures '.' !in Decimal.Show(n)
  {
  }

  /** The text inside a minted token, and its parts when tenant and subject hold no dot. */
  lemma MintedParts(
    env: Env, secret: string, p: Purpose, expiresAt: nat, random: seq<Byte>, tenant: string, subject: string)
    requires Faithful(env, expiresAt)
    ensures var message := Message(Name(p), Decimal.Show(expiresAt), Encode(random), tenant, subject);
            var token, parts := Mint(env, secret, p, expiresAt, random, tenant, subject), Split(message, '.');
            && token != ""
            && Split(env.text(Decode(token)), '.') == parts + [Sign(env, secret, message)]
            && |parts| == 3 + Count(tenant) + Count(subject)
  {
    var message := Message(Name(p), Decimal.Show(expiresAt), Encode(random), tenant, subject);
    var signature := Sign(env, secret, message);
    var payload := message + "." + signature;
    DecodeEncode(env.utf8(payload));
    EncodedIsOnePart(env.utf8(payload));
    EncodedIsOnePart(env.mac(secret, message));
    EncodedIsOnePart(random);
    SplitConcatFree(message, signature);
    MessageCount(Name(p), Decimal.Show(expiresAt), Encode(random), tenant, subject);
    NamesAreOnePart(p);
    ShowIsOnePart(expiresAt);
    CountIsOneIff(Name(p));
    CountIsOneIff(Decimal.Show(expiresAt));
    CountIsOneIff(Encode(random));
    assert payload != "" && env.text(env.utf8(payload)) == payload;
  }

  lemma MintedFields(
    env: Env, secret: string, p: Purpose, expiresAt: nat, random: seq<Byte>, tenant: string, subject: string)
    requires Faithful(env, expiresAt) && random != [] && '.' !in tenant && '.' !in subject
    ensures var message := Message(Name(p), Decimal.Show(expiresAt), Encode(random), tenant, subject);
            var token := Mint(env, secret, p, expiresAt, random, tenant, subject);
            && token != ""
            && Split(env.text(Decode(token)), '.')
               == [Name(p), Decimal.Show(expiresAt), Encode(random), tenant, subject, Sign(env, secret, message)]
            && Encode(random) != "" && Sign(env, secret, message) != ""
  {
    MintedParts(env, secret, p, expiresAt, random, tenant, subject);
    NamesAreOnePart(p);
    ShowIsOnePart(expiresAt);
    EncodedIsOnePart(random);
    MessageSplits(Name(p), Decimal.Show(expiresAt), Encode(random), tenant, subject);
    EncodedIsOnePart(env.mac(secret, Message(Name(p), Decimal.Show(expiresAt), Encode(random), tenant, subject)));
  }

  /** A minted token verifies for its own purpose if and only if both fields are single parts and it has not expired. */
  lemma MintedVerifiesIff(
    env: Env, secret: string, p: Purpose, expiresAt: nat, random: seq<Byte>, tenant: string, subject: string, now: int)
    requires Faithful(env, expiresAt) && secret != "" && random != []
    ensures Verify(env, Mint(env, secret, p, expiresAt, random, tenant, subject), secret, p, now)
            == if !IsField(tenant) || !IsField(subject) then Rejected(InvalidPayload)
               else if now > expiresAt then Rejected(Expired)
               else Accepted(tenant, subject)
  {
    if '.' in tenant || '.' in subject {
      MintedParts(env, secret, p, expiresAt, random, tenant, subject);
      CountIsOneIff(tenant);
      CountIsOneIff(subject);
    } else {
      MintedFields(env, secret, p, expiresAt, random, tenant, subject);
    }
  }

  /** A token minted for one purpose is of no use for the other. */
  lemma OtherPurposeIsRejected(
    env: Env, secret: string, p: Purpose, q: Purpose, expiresAt: nat, random: seq<Byte>,
    tenant: string, subject: string, now: int)
    requires Faithful(env, expiresAt) && secret != "" && random != [] && p != q && IsField(tenant) && IsField(subject)
    ensures Verify(env, Mint(env, secret, p, expiresAt, random, tenant, subject), secret, q, now)
            == Rejected(WrongPurpose)
  {
    MintedFields(env, secret, p, expiresAt, random, tenant, subject);
    NamesAreOnePart(p);
    NamesAreOnePart(q);
  }

  // ----- What an accepted token says -----

  /** Everything that one call of mint was given and drew. */
  datatype Minted = Minted(purpose: Purpose, expiresAt: nat, random: seq<Byte>, tenant: string, subject: string)

  function MessageOf(env: Env, m: Minted): string {
    Message(Name(m.purpose), env.show(m.expiresAt as real), Encode(m.random), m.tenant, m.subject)
  }

  /** For one secret the hash of a message tells the message. */
  ghost predicate Injective(env: Env, secret: string) {
    forall m, n :: env.mac(secret, m) == env.mac(secret, n) ==> m == n
  }

  lemma SignatureTellsMessage(env: Env, secret: string, m: string, n: string)
    requires Injective(env, secret) && Sign(env, secret, m) == Sign(env, secret, n)
    ensures m == n
  {
    DecodeEncode(env.mac(secret, m));
    DecodeEncode(env.mac(secret, n));
  }

  lemma SameMessageSameFields(
    purpose: string, shown: string, nonce: string, tenant: string, subject: string, env: Env, m: Minted)
    requires '.' !in purpose && '.' !in nonce && '.' !in tenant && '.' !in subject
    requires '.' !in m.tenant && '.' !in m.subject && '.' !in env.show(m.expiresAt as real)
    requires Message(purpose, shown, nonce, tenant, subject) == MessageOf(env, m)
    ensures purpose == Name(m.purpose) && shown == env.show(m.expiresAt as real) && nonce == Encode(m.random)
    ensures tenant == m.tenant && subject == m.subject
  {
    NamesAreOnePart(m.purpose);
    EncodedIsOnePart(m.random);
    MessageSplits(Name(m.purpose), env.show(m.expiresAt as real), Encode(m.random), m.tenant, m.subject);
    MessageCount(purpose, shown, nonce, tenant, subject);
    CountIsOneIff(purpose);
    CountIsOneIff(shown);
    CountIsOneIff(nonce);
    CountIsOneIff(tenant);
    CountIsOneIff(subject);
    MessageSplits(purpose, shown, nonce, tenant, subject);
  }

  /**
   * Whoever can only reuse signatures of minted tokens gets a token accepted for exactly the
   * purpose, tenant and subject of one of them, whatever is changed around them.
   */
  lemma AcceptedWasMinted(env: Env, token: string, secret: string, p: Purpose, now: int, m: Minted)
    requires Injective(env, secret) && '.' !in m.tenant && '.' !in m.subject && '.' !in env.show(m.expiresAt as real)
    requires Verify(env, token, secret, p, now).Accepted?
    requires Split(env.text(Decode(token)), '.')[5] == Sign(env, secret, MessageOf(env, m))
    ensures p == m.purpose && Verify(env, token, secret, p, now) == Accepted(m.tenant, m.subject)
    ensures var parts := Split(env.text(Decode(token)), '.');
            parts[2] == Encode(m.random) && env.number(parts[1]).Some?
            && env.show(env.number(parts[1]).value) == env.show(m.expiresAt as real)
  {
    var payload := env.text(Decode(token));
    var parts := Split(payload, '.');
    PartsAreFree(payload, '.', 0);
    PartsAreFree(payload, '.', 2);
    PartsAreFree(payload, '.', 3);
    PartsAreFree(payload, '.', 4);
    var shown := env.show(env.number(parts[1]).value);
    SignatureTellsMessage(env, secret, Message(parts[0], shown, parts[2], parts[3], parts[4]), MessageOf(env, m));
    SameMessageSameFields(parts[0], shown, parts[2], parts[3], parts[4], env, m);
    NamesAreOnePart(p);
    NamesAreOnePart(m.purpose);
  }

  /** The parts of a token's text that a verification for `purpose` at this time accepts. */
  ghost predicate IsGood(env: Env, parts: seq<string>, secret: string, purpose: string, now: int) {
    && |parts| == 6 && (forall i :: 2 <= i < 6 ==> parts[i] != "")
    && parts[0] == purpose
    && env.number(parts[1]).Some? && now as real <= env.number(parts[1]).value
    && var shown := env.show(env.number(parts[1]).value);
       parts[5] == Encode(env.mac(secret, parts[0] + "." + shown + "." + parts[2] + "." + parts[3] + "." + parts[4]))
  }

  /**
   * A token is accepted, if and only if there is a token and a secret, and its text has six parts: the purpose,
   * an expiry that has not passed, a nonce, a tenant, a subject, and the signature of all these.
   */
  lemma AcceptedIff(env: Env, token: string, secret: string, p: Purpose, now: int)
    ensures var parts := Split(env.text(Decode(token)), '.');
            && (Verify(env, token, secret, p, now).Accepted? <==>
                  && token != "" && secret != ""
                  && IsGood(env, parts, secret, if p == Progress then "progress" else "preview", now))
            && (Verify(env, token, secret, p, now).Accepted? ==>
                  |parts| == 6 && Verify(env, token, secret, p, now) == Accepted(parts[3], parts[4]))
  {
  }

  /** Without a token, and without a secret, that is the reason. */
  lemma MissingIsSaid(env: Env, token: string, secret: string, p: Purpose, now: int)
    ensures Verify(env, "", secret, p, now) == Rejected(MissingToken)
    ensures token != "" ==> Verify(env, token, "", p, now) == Rejected(MissingSecret)
  {
  }

  /** A token whose signature alone is changed is rejected for its signature. */
  lemma ForgedIsRejected(
    env: Env, token: string, forged: string, secret: string, p: Purpose, now: int, signature: string)
    requires Verify(env, token, secret, p, now).Accepted? && forged != "" && signature != ""
    requires var parts := Split(env.text(Decode(token)), '.');
             |parts| == 6 && Split(env.text(Decode(forged)), '.') == parts[5 := signature] && signature != parts[5]
    ensures Verify(env, forged, secret, p, now) == Rejected(InvalidSignature)
  {
  }
}
