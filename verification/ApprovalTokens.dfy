/** Approval tokens: minted by the Python service or the Rust helper, verified by the Rust runner. */
module ApprovalTokens {
  import opened Texts
  import opened Wrappers

  // -------------------------------------------------------------------- strings

  /** char::is_whitespace of Rust. */
  predicate Space(c: char) {
    || '\t' <= c <= '\r' || c == ' ' || c == '\U{0085}' || c == '\U{00A0}' || c == '\U{1680}'
    || '\U{2000}' <= c <= '\U{200A}' || c == '\U{2028}' || c == '\U{2029}'
    || c == '\U{202F}' || c == '\U{205F}' || c == '\U{3000}'
  }

  function FirstDot(s: string): (i: nat)
    ensures i <= |s| && (i < |s| ==> s[i] == '.') && forall k :: 0 <= k < i ==> s[k] != '.'
  {
    if s == "" || s[0] == '.' then 0 else 1 + FirstDot(s[1..])
  }

  /** s.splitn(n, '.') */
  function SplitN(s: string, n: nat): (r: seq<string>)
    requires n >= 1
    ensures 1 <= |r| <= n
    decreases n
  {
    var i := FirstDot(s);
    if n == 1 || i == |s| then [s] else [s[..i]] + SplitN(s[i + 1..], n - 1)
  }

  predicate Digit(c: char) {
    '0' <= c <= '9'
  }

  function DigitOf(n: nat): (c: char)
    requires n < 10
    ensures Digit(c) && ValueOf(c) == n
  {
    '0' + n as char
  }

  function ValueOf(c: char): (n: nat)
    requires Digit(c)
  {
    c as int - '0' as int
  }

  /** The decimal form, without leading zeros. */
  function Decimal(n: nat): (s: string)
    ensures s != "" && forall k :: 0 <= k < |s| ==> Digit(s[k])
  {
    if n < 10 then [DigitOf(n)] else Decimal(n / 10) + [DigitOf(n % 10)]
  }

  function Digits(s: string): (r: Option<nat>) {
    if s == "" then Some(0)
    else
      var front, last := Digits(s[..|s| - 1]), s[|s| - 1];
      if front.Some? && Digit(last) then Some(10 * front.value + ValueOf(last)) else None
  }

  const U64_LIMIT: nat := 0x1_0000_0000_0000_0000

  /** str::parse::<u64>: an optional plus sign and digits, below the limit. */
  function ParseU64(s: string): (r: Option<nat>) {
    var digits := if s != "" && s[0] == '+' then s[1..] else s;
    var value := Digits(digits);
    if digits == "" || value.None? || value.value >= U64_LIMIT then None else value
  }

  lemma {:induction false} DigitsOfDecimal(n: nat)
    ensures Digits(Decimal(n)) == Some(n)
  {
    if n >= 10 {
      DigitsOfDecimal(n / 10);
      assert (Decimal(n / 10) + [DigitOf(n % 10)])[..|Decimal(n / 10)|] == Decimal(n / 10);
    } else {
      var none: string := "";
      assert [DigitOf(n)][..0] == none;
    }
  }

  /** Printing a time and parsing it undo each other. */
  lemma TimeRoundTrip(n: nat)
    requires n < U64_LIMIT
    ensures ParseU64(Decimal(n)) == Some(n)
  {
    DigitsOfDecimal(n);
    assert Digit(Decimal(n)[0]);
  }

  /** A leading plus is allowed, leading zeros too; a number from 2^64 on, an empty text and any other
      character are not. */
  lemma ParsesAlso(n: nat, s: string)
    ensures ParseU64("+" + Decimal(n)) == ParseU64("0" + Decimal(n)) == ParseU64(Decimal(n))
    ensures ParseU64(Decimal(n)) == if n < 0x1_0000_0000_0000_0000 then Some(n) else None
    ensures ParseU64("") == ParseU64("+") == None
    ensures (exists k :: 0 < k < |s| && !Digit(s[k])) || (s != "" && !Digit(s[0]) && s[0] != '+') ==>
            ParseU64(s) == None
  {
    DigitsOfDecimal(n);
    assert Digit(Decimal(n)[0]);
    assert ("+" + Decimal(n))[1..] == Decimal(n);
    LeadingZero(Decimal(n));
    if s != "" {
      if k :| 0 < k < |s| && !Digit(s[k]) {
        NotDigits(s, k);
        if s[0] == '+' { NotDigits(s[1..], k - 1); }
      }
      if !Digit(s[0]) { NotDigits(s, 0); }
    }
  }

  lemma {:induction false} LeadingZero(s: string)
    ensures Digits("0" + s) == Digits(s)
  {
    if s == "" {
      assert "0" + s == "0" && "0"[..0] == "";
    } else {
      assert ("0" + s)[..|s|] == "0" + s[..|s| - 1];
      LeadingZero(s[..|s| - 1]);
    }
  }

  lemma {:induction false} NotDigits(s: string, k: nat)
    requires k < |s| && !Digit(s[k])
    ensures Digits(s) == None
  {
    if k < |s| - 1 { NotDigits(s[..|s| - 1], k); }
  }

  // --------------------------------------------------------- comparing the bytes

  lemma DiffBit(d: bv8, x: bv8, y: bv8)
    ensures d | (x ^ y) == 0 <==> d == 0 && x == y
  {
  }

  /** constant_time_eq accumulates the differences instead of stopping at the first. */
  method ConstantTimeEq(a: seq<bv8>, b: seq<bv8>) returns (r: bool)
    ensures r <==> a == b
  {
    if |a| != |b| { return false; }
    var diff: bv8 := 0;
    for i := 0 to |a|
      invariant diff == 0 <==> a[..i] == b[..i]
    {
      DiffBit(diff, a[i], b[i]);
      assert a[..i + 1] == a[..i] + [a[i]] && b[..i + 1] == b[..i] + [b[i]];
      diff := diff | (a[i] ^ b[i]);
    }
    assert a[..|a|] == a && b[..|b|] == b;
    return diff == 0;
  }

  // --------------------------------------------------------- minting, verifying

  datatype TokenError = MalformedToken | ChallengeIdMismatch | TokenNotYetValid | TokenExpired | TokenMismatch
      | MissingApprovalToken

  /** HMAC-SHA256 in lower-case hex of a message under a secret. */
  type Mac = (string, string) -> string

  predicate Hex(s: string) {
    forall k :: 0 <= k < |s| ==> Digit(s[k]) || 'a' <= s[k] <= 'f'
  }

  function Message(challengeId: string, iat: nat, nonce: string): (m: string) {
    challengeId + "|" + Decimal(iat) + "|" + nonce
  }

  function Token(challengeId: string, iat: string, nonce: string, mac: string): (t: string) {
    challengeId + "." + (iat + "." + (nonce + "." + mac))
  }

  /** generate_token, and approval_token_for_challenge under a secret that is set. */
  function Mint(mac: Mac, challengeId: string, iat: nat, nonce: string, secret: string): (t: string) {
    Token(challengeId, Decimal(iat), nonce, mac(Message(challengeId, iat, nonce), secret))
  }

  /** What the runner knows when it verifies. */
  datatype Runner = Runner(current: string, previous: Option<string>, ttl: nat, now: nat)

  predicate InTime(r: Runner, iat: nat) {
    iat <= r.now <= iat + r.ttl
  }

  predicate Signed(mac: Mac, r: Runner, message: string, signature: string) {
    signature == mac(message, r.current) || (r.previous.Some? && signature == mac(message, r.previous.value))
  }

  /** verify_token */
  function Verify(mac: Mac, r: Runner, expected: string, token: string): (v: Result<(), TokenError>) {
    var parts := SplitN(token, 4);
    if |parts| != 4 then Failure(MalformedToken)
    else if parts[0] != expected then Failure(ChallengeIdMismatch)
    else match ParseU64(parts[1])
      case None => Failure(MalformedToken)
      case Some(iat) =>
        if iat > r.now then Failure(TokenNotYetValid)
        else if r.now - iat > r.ttl then Failure(TokenExpired)
        else if Signed(mac, r, Message(expected, iat, parts[2]), parts[3]) then Success(())
        else Failure(TokenMismatch)
  }

  datatype Input = Input(challengeId: string, token: string)

  /** require_approval */
  function RequireApproval(mac: Mac, r: Runner, approval: Option<Input>, challengeId: string)
    : (v: Result<(), TokenError>)
  {
    match approval
    case None => Failure(MissingApprovalToken)
    case Some(input) =>
      if Trim(input.challengeId, Space) != challengeId then Failure(ChallengeIdMismatch)
      else Verify(mac, r, challengeId, Trim(input.token, Space))
  }

  // ------------------------------------------------------------------ splitting

  lemma FirstDotIs(head: string, rest: string)
    requires '.' !in head
    ensures FirstDot(head + "." + rest) == |head|
  {
    var s := head + "." + rest;
    assert s[|head|] == '.' && forall k :: 0 <= k < |head| ==> s[k] == head[k];
  }

  lemma SplitHead(head: string, rest: string, n: nat)
    requires n >= 2 && '.' !in head
    ensures SplitN(head + "." + rest, n) == [head] + SplitN(rest, n - 1)
  {
    FirstDotIs(head, rest);
    var s := head + "." + rest;
    assert s[..|head|] == head && s[|head| + 1..] == rest;
  }

  lemma SplitLast(s: string)
    ensures SplitN(s, 1) == [s]
  {
  }

  lemma SplitTwo(nonce: string, mac: string)
    requires '.' !in nonce
    ensures SplitN(nonce + "." + mac, 2) == [nonce, mac]
  {
    SplitHead(nonce, mac, 2);
    SplitLast(mac);
  }

  lemma SplitThree(iat: string, nonce: string, mac: string)
    requires '.' !in iat && '.' !in nonce
    ensures SplitN(iat + "." + (nonce + "." + mac), 3) == [iat, nonce, mac]
  {
    SplitHead(iat, nonce + "." + mac, 3);
    SplitTwo(nonce, mac);
  }

  /** A token with dot-free fields splits into them; dots in the last field stay in it. */
  lemma SplitToken(challengeId: string, iat: string, nonce: string, mac: string)
    requires '.' !in challengeId && '.' !in iat && '.' !in nonce
    ensures SplitN(Token(challengeId, iat, nonce, mac), 4) == [challengeId, iat, nonce, mac]
  {
    SplitThree(iat, nonce, mac);
    SplitFour(challengeId, iat + "." + (nonce + "." + mac), [iat, nonce, mac]);
  }

  lemma SplitFour(head: string, rest: string, three: seq<string>)
    requires '.' !in head && SplitN(rest, 3) == three && |three| == 3
    ensures SplitN(head + "." + rest, 4) == [head, three[0], three[1], three[2]]
  {
    SplitHead(head, rest, 4);
    assert [head] + three == [head, three[0], three[1], three[2]];
  }

  lemma CutAtDot(s: string) returns (head: string, rest: string)
    requires FirstDot(s) < |s|
    ensures '.' !in head && s == head + "." + rest
    ensures forall n: nat :: n >= 2 ==> SplitN(s, n) == [head] + SplitN(rest, n - 1)
  {
    head, rest := s[..FirstDot(s)], s[FirstDot(s) + 1..];
    assert s == head + "." + rest;
  }

  /** Four parts come only from a token in that form. */
  lemma FourParts(token: string)
    requires |SplitN(token, 4)| == 4
    ensures var p := SplitN(token, 4);
            '.' !in p[0] && '.' !in p[1] && '.' !in p[2] && token == Token(p[0], p[1], p[2], p[3])
  {
    var a, rest1 := CutAtDot(token);
    var b, rest2 := CutAtDot(rest1);
    var c, rest3 := CutAtDot(rest2);
    SplitLast(rest3);
  }

  // ------------------------------------------------------------------- theorems

  /** The fields that make a token acceptable. */
  predicate Acceptable(mac: Mac, r: Runner, expected: string, iat: string, nonce: string, signature: string) {
    && ParseU64(iat).Some? && InTime(r, ParseU64(iat).value)
    && Signed(mac, r, Message(expected, ParseU64(iat).value, nonce), signature)
  }

  lemma AcceptedIf(mac: Mac, r: Runner, expected: string, iat: string, nonce: string, signature: string)
    requires '.' !in expected && '.' !in iat && '.' !in nonce
    ensures Verify(mac, r, expected, Token(expected, iat, nonce, signature)) == Success(()) <==>
            Acceptable(mac, r, expected, iat, nonce, signature)
  {
    SplitToken(expected, iat, nonce, signature);
  }

  predicate IsToken(token: string, expected: string, iat: string, nonce: string, signature: string) {
    '.' !in expected && '.' !in iat && '.' !in nonce && token == Token(expected, iat, nonce, signature)
  }

  /** A token is accepted exactly if it is the four fields joined by dots: the expected challenge, free of
      dots; a time that parses and whose window holds the present; a nonce free of dots; and the MAC of
      these three under the current or the previous secret. */
  lemma AcceptedExactly(mac: Mac, r: Runner, expected: string, token: string)
    ensures Verify(mac, r, expected, token) == Success(()) <==>
            exists iat, nonce, signature {:trigger IsToken(token, expected, iat, nonce, signature)} ::
              IsToken(token, expected, iat, nonce, signature) && Acceptable(mac, r, expected, iat, nonce, signature)
  {
    if Verify(mac, r, expected, token) == Success(()) {
      FourParts(token);
      var p := SplitN(token, 4);
      assert IsToken(token, expected, p[1], p[2], p[3]);
      AcceptedIf(mac, r, expected, p[1], p[2], p[3]);
    }
    forall iat, nonce, signature |
      IsToken(token, expected, iat, nonce, signature) && Acceptable(mac, r, expected, iat, nonce, signature)
      ensures Verify(mac, r, expected, token) == Success(())
    {
      AcceptedIf(mac, r, expected, iat, nonce, signature);
    }
  }

  /** What a request without a token, for another challenge, or with a token, comes to. */
  lemma ApprovalExactly(mac: Mac, r: Runner, approval: Option<Input>, challengeId: string)
    ensures var v := RequireApproval(mac, r, approval, challengeId);
            && (v == Failure(MissingApprovalToken) <==> approval.None?)
            && (approval.Some? && Trim(approval.value.challengeId, Space) != challengeId ==>
                  v == Failure(ChallengeIdMismatch))
            && (v == Success(()) <==>
                  && approval.Some? && Trim(approval.value.challengeId, Space) == challengeId
                  && Verify(mac, r, challengeId, Trim(approval.value.token, Space)) == Success(()))
  {
  }

  lemma VerdictOfParts(mac: Mac, r: Runner, expected: string, token: string, parts: seq<string>)
    requires SplitN(token, 4) == parts && |parts| == 4
    ensures var v := Verify(mac, r, expected, token);
            var at := ParseU64(parts[1]);
            && (v == Failure(ChallengeIdMismatch) <==> parts[0] != expected)
            && (v == Failure(MalformedToken) <==> parts[0] == expected && at.None?)
            && (v == Failure(TokenNotYetValid) <==> parts[0] == expected && at.Some? && r.now < at.value)
            && (v == Failure(TokenExpired) <==> parts[0] == expected && at.Some? && at.value + r.ttl < r.now)
  {
  }

  /** Which check a token fails, if any. */
  lemma VerdictExactly(mac: Mac, r: Runner, expected: string, id: string, iat: string, nonce: string, signature: string)
    requires '.' !in id && '.' !in iat && '.' !in nonce
    ensures var v := Verify(mac, r, expected, id + "." + (iat + "." + (nonce + "." + signature)));
            var at := ParseU64(iat);
            && (v == Failure(ChallengeIdMismatch) <==> id != expected)
            && (v == Failure(MalformedToken) <==> id == expected && at.None?)
            && (v == Failure(TokenNotYetValid) <==> id == expected && at.Some? && r.now < at.value)
            && (v == Failure(TokenExpired) <==> id == expected && at.Some? && at.value + r.ttl < r.now)
  {
    SplitToken(id, iat, nonce, signature);
    VerdictOfParts(mac, r, expected, Token(id, iat, nonce, signature), [id, iat, nonce, signature]);
  }

  /** What the runner makes of a minted token. */
  lemma MintedVerdict(mac: Mac, r: Runner, challengeId: string, iat: nat, nonce: string, secret: string)
    requires '.' !in challengeId && '.' !in nonce && iat < U64_LIMIT
    ensures Verify(mac, r, challengeId, Mint(mac, challengeId, iat, nonce, secret)) ==
              if r.now < iat then Failure(TokenNotYetValid)
              else if iat + r.ttl < r.now then Failure(TokenExpired)
              else if Signed(mac, r, Message(challengeId, iat, nonce),
                  mac(Message(challengeId, iat, nonce), secret)) then Success(())
              else Failure(TokenMismatch)
  {
    TimeRoundTrip(iat);
    SplitToken(challengeId, Decimal(iat), nonce, mac(Message(challengeId, iat, nonce), secret));
  }

  predicate Trimmed(s: string) {
    Trim(s, Space) == s
  }

  lemma TrimmedEnds(s: string)
    requires s != "" ==> !Space(s[0]) && !Space(s[|s| - 1])
    ensures Trimmed(s)
  {
  }

  lemma MintedIsTrimmed(mac: Mac, challengeId: string, iat: nat, nonce: string, secret: string)
    requires challengeId != "" ==> !Space(challengeId[0])
    requires Hex(mac(Message(challengeId, iat, nonce), secret))
    ensures Trimmed(Mint(mac, challengeId, iat, nonce, secret))
  {
    var signature := mac(Message(challengeId, iat, nonce), secret);
    var t := Mint(mac, challengeId, iat, nonce, secret);
    assert t[0] == if challengeId == "" then '.' else challengeId[0];
    assert t[|t| - 1] == if signature == "" then '.' else signature[|signature| - 1];
    TrimmedEnds(t);
  }

  lemma {:induction false} TrimTrims(s: string)
    ensures Trim(s, Space) != "" ==> !Space(Trim(s, Space)[0])
    decreases |s|
  {
    if s != "" {
      if Space(s[0]) { TrimTrims(s[1..]); } else if Space(s[|s| - 1]) { TrimTrims(s[..|s| - 1]); }
    }
  }

  /** Mint and verify undo each other across the two programs: a token minted under the current or the
      previous secret for a challenge without dots is approved at exactly the moments from iat to iat + ttl,
      and before and after that refused for being too early or too late. */
  lemma MintedApprovedInTime(mac: Mac, r: Runner, input: Input, iat: nat, nonce: string, secret: string)
    requires var challengeId := Trim(input.challengeId, Space);
             && '.' !in challengeId && '.' !in nonce && iat < U64_LIMIT
             && input.token == Mint(mac, challengeId, iat, nonce, secret)
             && Hex(mac(Message(challengeId, iat, nonce), secret))
    requires secret == r.current || r.previous == Some(secret)
    ensures var v := RequireApproval(mac, r, Some(input), Trim(input.challengeId, Space));
            && (v == Success(()) <==> InTime(r, iat))
            && (v == Failure(TokenNotYetValid) <==> r.now < iat)
            && (v == Failure(TokenExpired) <==> iat + r.ttl < r.now)
  {
    var challengeId := Trim(input.challengeId, Space);
    TrimTrims(input.challengeId);
    MintedIsTrimmed(mac, challengeId, iat, nonce, secret);
    MintedVerdict(mac, r, challengeId, iat, nonce, secret);
  }

  /** For a challenge with a dot no token is ever accepted, because the split is from the left. */
  lemma DottedNeverAccepted(mac: Mac, r: Runner, expected: string, token: string)
    requires '.' in expected
    ensures Verify(mac, r, expected, token) in {Failure(MalformedToken), Failure(ChallengeIdMismatch)}
  {
    if |SplitN(token, 4)| == 4 { FourParts(token); }
  }

  /** A token minted for such a challenge always gives the mismatch. */
  lemma DottedMintMismatches(mac: Mac, r: Runner, challengeId: string, iat: nat, nonce: string, secret: string)
    requires '.' in challengeId
    ensures Verify(mac, r, challengeId, Mint(mac, challengeId, iat, nonce, secret)) == Failure(ChallengeIdMismatch)
  {
    var a, rest := DotIn(challengeId);
    var signature := mac(Message(challengeId, iat, nonce), secret);
    var tail := Decimal(iat) + "." + (nonce + "." + signature);
    assert Mint(mac, challengeId, iat, nonce, secret) == a + "." + (rest + "." + tail);
    SplitHead(a, rest + "." + tail, 4);
    AtLeastThree(rest, Decimal(iat), nonce + "." + signature);
  }

  lemma DotIn(s: string) returns (head: string, rest: string)
    requires '.' in s
    ensures '.' !in head && s == head + "." + rest && |head| < |s|
  {
    head, rest := s[..FirstDot(s)], s[FirstDot(s) + 1..];
  }

  /** Two dots give at least three parts. */
  lemma AtLeastThree(x: string, y: string, z: string)
    ensures |SplitN(x + "." + (y + "." + z), 3)| == 3
  {
    var s := x + "." + (y + "." + z);
    assert s[|x|] == '.' && s[|x| + 1 + |y|] == '.';
    var i := FirstDot(s);
    var t := s[i + 1..];
    assert t[|x| + |y| - i] == '.';
    assert FirstDot(t) < |t|;
    SplitLast(t[FirstDot(t) + 1..]);
  }

  // --------------------------------------------------- where the secrets come from

  /** approval_secret and approval_secret_previous: a blank variable does not count. */
  function CurrentSecret(env: Option<string>, random: string): (s: string) {
    if env.Some? && Trim(env.value, Space) != "" then env.value else random
  }

  function PreviousSecret(env: Option<string>): (s: Option<string>) {
    if env.Some? && Trim(env.value, Space) != "" then env else None
  }

  /** approval_token_for_challenge, which only asks whether the variable is set and not empty. */
  function ServiceToken(mac: Mac, env: Option<string>, challengeId: string, iat: nat, nonce: string): (t: string) {
    if env.None? || env.value == "" then "approve:" + challengeId else Mint(mac, challengeId, iat, nonce, env.value)
  }

  /** The token of a service without a secret is never accepted, for any challenge. */
  lemma LegacyNeverAccepted(mac: Mac, r: Runner, challengeId: string)
    ensures Verify(mac, r, challengeId, "approve:" + challengeId)
              in {Failure(MalformedToken), Failure(ChallengeIdMismatch)}
  {
    if '.' in challengeId {
      DottedNeverAccepted(mac, r, challengeId, "approve:" + challengeId);
    } else {
      var t := "approve:" + challengeId;
      assert forall k :: 0 <= k < |"approve:"| ==> t[k] == "approve:"[k];
      assert '.' !in "approve:";
      assert '.' !in t;
      assert FirstDot(t) == |t|;
    }
  }

  /** With one secret in both environments a token in time is accepted exactly if that secret is set and
      not blank, or the MAC does not tell it from the secrets the runner uses instead. */
  lemma SharedSecretWorks(mac: Mac, env: Option<string>, random: string, previous: Option<string>, ttl: nat, now: nat,
                          challengeId: string, iat: nat, nonce: string)
    requires '.' !in challengeId && '.' !in nonce && iat < U64_LIMIT && iat <= now <= iat + ttl
    ensures var r := Runner(CurrentSecret(env, random), PreviousSecret(previous), ttl, now);
            var m := Message(challengeId, iat, nonce);
            Verify(mac, r, challengeId, ServiceToken(mac, env, challengeId, iat, nonce)) == Success(()) <==>
            env.Some? && env.value != "" && (Trim(env.value, Space) != "" || Signed(mac, r, m, mac(m, env.value)))
  {
    var r := Runner(CurrentSecret(env, random), PreviousSecret(previous), ttl, now);
    if env.None? || env.value == "" {
      LegacyNeverAccepted(mac, r, challengeId);
    } else {
      MintedVerdict(mac, r, challengeId, iat, nonce, env.value);
    }
  }

  /** Rotation: a token minted under the secret that is now the previous one is accepted in time, unless that
      variable is blank and the MAC tells it from the current secret. */
  lemma RotationWorks(mac: Mac, env: Option<string>, random: string, former: string, ttl: nat, now: nat,
                      challengeId: string, iat: nat, nonce: string)
    requires '.' !in challengeId && '.' !in nonce && iat < U64_LIMIT && iat <= now <= iat + ttl && former != ""
    ensures var current := CurrentSecret(env, random);
            var m := challengeId + "|" + Decimal(iat) + "|" + nonce;
            Verify(mac, Runner(current, PreviousSecret(Some(former)), ttl, now), challengeId,
                   challengeId + "." + (Decimal(iat) + "." + (nonce + "." + mac(m, former)))) == Success(()) <==>
            Trim(former, Space) != "" || mac(m, former) == mac(m, current)
  {
    var r := Runner(CurrentSecret(env, random), PreviousSecret(Some(former)), ttl, now);
    MintedVerdict(mac, r, challengeId, iat, nonce, former);
  }

  /** A current secret that is set and not blank is used as it is; otherwise the random one is. */
  lemma SecretInUse(env: Option<string>, random: string)
    ensures CurrentSecret(env, random) == match env
              case None => random
              case Some(v) => if Trim(v, Space) == "" then random else v
  {
  }

  /** What is minted, written out; both programs print the same. */
  lemma MintedText(mac: Mac, challengeId: string, iat: nat, nonce: string, secret: string)
    requires secret != ""
    ensures Mint(mac, challengeId, iat, nonce, secret) == ServiceToken(mac, Some(secret), challengeId, iat, nonce)
              == challengeId + "." + Decimal(iat) + "." + nonce + "."
                 + mac(challengeId + "|" + Decimal(iat) + "|" + nonce, secret)
    ensures ServiceToken(mac, None, challengeId, iat, nonce) == ServiceToken(mac, Some(""), challengeId, iat, nonce)
              == "approve:" + challengeId
  {
    var signature := mac(challengeId + "|" + Decimal(iat) + "|" + nonce, secret);
    Rejoin(challengeId, Decimal(iat), nonce, signature);
  }

  lemma Rejoin(a: string, b: string, c: string, d: string)
    ensures a + "." + (b + "." + (c + "." + d)) == a + "." + b + "." + c + "." + d
  {
  }

  /** The failing environment: both programs read one blank secret, and with any MAC that tells it from the
      runner's random secret the service's token is refused although it is in time. */
  lemma BlankSecretFails(mac: Mac, blank: string, random: string, ttl: nat, now: nat, challengeId: string,
                         nonce: string)
    requires blank != "" && Trim(blank, Space) == "" && '.' !in challengeId && '.' !in nonce && now < U64_LIMIT
    requires mac(Message(challengeId, now, nonce), blank) != mac(Message(challengeId, now, nonce), random)
    ensures var r := Runner(CurrentSecret(Some(blank), random), PreviousSecret(None), ttl, now);
            Verify(mac, r, challengeId, ServiceToken(mac, Some(blank), challengeId, now, nonce))
                == Failure(TokenMismatch)
  {
    var r := Runner(CurrentSecret(Some(blank), random), PreviousSecret(None), ttl, now);
    MintedVerdict(mac, r, challengeId, now, nonce, blank);
  }

  /** One such environment: the secret is a single space. */
  lemma OneSpaceFails(ttl: nat, now: nat)
    requires now < U64_LIMIT
    ensures var mac: Mac := (message, secret) => secret;
            var r := Runner(CurrentSecret(Some(" "), "r"), PreviousSecret(None), ttl, now);
            Verify(mac, r, "c", ServiceToken(mac, Some(" "), "c", now, "n")) == Failure(TokenMismatch)
  {
    assert " "[1..] == "" && Trim(" ", Space) == Trim("", Space);
    BlankSecretFails((message, secret) => secret, " ", "r", ttl, now, "c", "n");
  }

  // -------------------------------------------------------- what a signature binds

  lemma BarIs(head: string, rest: string, head2: string, rest2: string)
    requires '|' !in head && '|' !in head2 && head + "|" + rest == head2 + "|" + rest2
    ensures head == head2 && rest == rest2
  {
    var s := head + "|" + rest;
    assert s[|head|] == '|' && s[|head2|] == '|';
    assert forall k :: 0 <= k < |head| ==> s[k] == head[k];
    assert forall k :: 0 <= k < |head2| ==> s[k] == head2[k];
    assert |head| == |head2|;
    assert s[..|head|] == head && s[..|head2|] == head2;
    assert s[|head| + 1..] == rest && s[|head2| + 1..] == rest2;
  }

  /** For ids without '|' the signed message determines the challenge, the time and the nonce. */
  lemma MessageBinds(a: string, i: nat, m: string, b: string, j: nat, n: string)
    requires '|' !in a && '|' !in b && Message(a, i, m) == Message(b, j, n)
    ensures a == b && i == j && m == n
  {
    assert Message(a, i, m) == a + "|" + (Decimal(i) + "|" + m);
    assert Message(b, j, n) == b + "|" + (Decimal(j) + "|" + n);
    BarIs(a, Decimal(i) + "|" + m, b, Decimal(j) + "|" + n);
    BarIs(Decimal(i), m, Decimal(j), n);
    DigitsOfDecimal(i);
    DigitsOfDecimal(j);
  }

  ghost predicate Injective(mac: Mac) {
    forall m, s, n, t :: mac(m, s) == mac(n, t) ==> m == n
  }

  /** With a MAC without collisions a minted signature is accepted for exactly the fields that give the
      message it signs. */
  lemma SignedMessageDecides(mac: Mac, r: Runner, expected: string, iat: string, nonce: string,
                             minted: string, at: nat, mintedNonce: string, secret: string)
    requires Injective(mac) && '.' !in expected && '.' !in iat && '.' !in nonce
    requires secret == r.current || r.previous == Some(secret)
    ensures var signature := mac(Message(minted, at, mintedNonce), secret);
            Verify(mac, r, expected, Token(expected, iat, nonce, signature)) == Success(()) <==>
            && ParseU64(iat).Some? && InTime(r, ParseU64(iat).value)
            && Message(expected, ParseU64(iat).value, nonce) == Message(minted, at, mintedNonce)
  {
    AcceptedIf(mac, r, expected, iat, nonce, mac(Message(minted, at, mintedNonce), secret));
  }

  /** So for ids without '|' it is accepted for the challenge it was minted for, at its own time and with its
      own nonce, and for nothing else. */
  lemma SignatureBinds(mac: Mac, r: Runner, expected: string, iat: string, nonce: string,
                       minted: string, at: nat, mintedNonce: string, secret: string)
    requires Injective(mac) && '|' !in expected && '|' !in minted
    requires '.' !in expected && '.' !in iat && '.' !in nonce
    requires secret == r.current || r.previous == Some(secret)
    ensures var signature := mac(Message(minted, at, mintedNonce), secret);
            Verify(mac, r, expected, Token(expected, iat, nonce, signature)) == Success(()) <==>
            expected == minted && ParseU64(iat) == Some(at) && nonce == mintedNonce && InTime(r, at)
  {
    SignedMessageDecides(mac, r, expected, iat, nonce, minted, at, mintedNonce, secret);
    if ParseU64(iat).Some? && Message(expected, ParseU64(iat).value, nonce) == Message(minted, at, mintedNonce) {
      MessageBinds(minted, at, mintedNonce, expected, ParseU64(iat).value, nonce);
    }
  }
}
