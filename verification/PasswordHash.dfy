/**
 The encoded password hash: printing, parsing and verifying. The key derivation is a parameter; its arguments are
 the password, the salt, the iterations, the memory, the parallelism and the key length.
 */
module PasswordHash {
  import opened Base64
  import opened Options
  import opened Scanning

  const VERSION: nat := 19
  const UINT32: nat := 0x1_0000_0000
  const UINT8: nat := 0x100

  datatype Params = Params(memory: nat, iterations: nat, parallelism: nat, saltLength: nat, keyLength: nat) {
    predicate Valid() {
      memory < UINT32 && iterations < UINT32 && parallelism < UINT8 && saltLength < UINT32 && keyLength < UINT32
    }
  }

  type Derivation = (string, seq<byte>, nat, nat, nat, nat) -> seq<byte>

  datatype Error =
    | EmptyPassword | EmptyHash | NoRandomness | InvalidHash | UnsupportedAlgorithm(name: string) | InvalidVersion
    | IncompatibleVersion(version: int) | InvalidParameters | InvalidSalt | InvalidKey | Mismatch

  datatype Result<+T> = Ok(value: T) | Err(error: Error)

  // ---------- printing ----------

  // The parameter list with something behind it; the printer puts nothing there.
  function ParamsText(memory: nat, iterations: nat, parallelism: nat, rest: string): string {
    "m=" + (Decimal(memory) + (",t=" + (Decimal(iterations) + (",p=" + (Decimal(parallelism) + rest)))))
  }

  function VersionText(rest: string): string {
    "v=" + (Decimal(VERSION) + rest)
  }

  // The text between the dollar signs, the first part being empty. Only `Format` prints, and without the two extras.
  function Parts(memory: nat, iterations: nat, parallelism: nat, salt: seq<byte>, key: seq<byte>,
                 afterVersion: string, afterParams: string): seq<string>
  {
    ["", "argon2id", VersionText(afterVersion), ParamsText(memory, iterations, parallelism, afterParams),
     Encode(salt), Encode(key)]
  }

  function Format(memory: nat, iterations: nat, parallelism: nat, salt: seq<byte>, key: seq<byte>): string {
    Join(Parts(memory, iterations, parallelism, salt, key, "", ""), '$')
  }

  // `salt` is what the random source delivered, None for its failure.
  function Hash(kdf: Derivation, p: Params, password: string, salt: Option<seq<byte>>): Result<string> {
    if password == "" then Err(EmptyPassword)
    else if salt.None? then Err(NoRandomness)
    else
      var key := kdf(password, salt.value, p.iterations, p.memory, p.parallelism, p.keyLength);
      Ok(Format(p.memory, p.iterations, p.parallelism, salt.value, key))
  }

  // ---------- parsing ----------

  function ParseVersion(part: string): Option<int> {
    match ScanLiteral(part, "v=")
    case None => None
    case Some(rest) => match ScanSigned(rest) case None => None case Some((version, _)) => Some(version)
  }

  // A number introduced by a literal.
  function ParseField(s: string, literal: string, size: nat): Option<(nat, string)> {
    match ScanLiteral(s, literal)
    case None => None
    case Some(rest) => ScanUnsigned(rest, size)
  }

  // Whatever follows the third number is ignored.
  function ParseParams(part: string): Option<(nat, nat, nat)> {
    match ParseField(part, "m=", UINT32)
    case None => None
    case Some((m, afterM)) =>
      match ParseField(afterM, ",t=", UINT32)
      case None => None
      case Some((t, afterT)) =>
        match ParseField(afterT, ",p=", UINT8)
        case None => None
        case Some((p, _)) => Some((m, t, p))
  }

  datatype Decoded = Decoded(params: Params, salt: seq<byte>, key: seq<byte>)

  function DecodeHash(encoded: string): Result<Decoded> {
    var parts := Split(encoded, '$');
    if |parts| != 6 then Err(InvalidHash)
    else if parts[1] != "argon2id" then Err(UnsupportedAlgorithm(parts[1]))
    else
      match ParseVersion(parts[2])
      case None => Err(InvalidVersion)
      case Some(version) =>
        if version != VERSION then Err(IncompatibleVersion(version))
        else
          match (ParseParams(parts[3]), Decode(parts[4]), Decode(parts[5]))
          case (None, _, _) => Err(InvalidParameters)
          case (_, None, _) => Err(InvalidSalt)
          case (_, _, None) => Err(InvalidKey)
          case (Some((m, t, p)), Some(salt), Some(key)) =>
            Ok(Decoded(Params(m, t, p, |salt| % UINT32, |key| % UINT32), salt, key))
  }

  function Verify(kdf: Derivation, password: string, encoded: string): Result<()> {
    if password == "" then Err(EmptyPassword)
    else if encoded == "" then Err(EmptyHash)
    else Compare(kdf, password, DecodeHash(encoded))
  }

  function Compare(kdf: Derivation, password: string, decoded: Result<Decoded>): Result<()> {
    match decoded
    case Err(e) => Err(e)
    case Ok(d) =>
      if kdf(password, d.salt, d.params.iterations, d.params.memory, d.params.parallelism, d.params.keyLength) == d.key
      then Ok(()) else Err(Mismatch)
  }

  // ---------- the round trip ----------

  lemma FreeConcat(a: string, b: string, c: char)
    ensures Free(a + b, c) <==> Free(a, c) && Free(b, c)
  {
    if Free(a + b, c) {
      assert forall i :: 0 <= i < |a| ==> a[i] == (a + b)[i];
      assert forall i :: 0 <= i < |b| ==> b[i] == (a + b)[|a| + i];
    }
  }

  lemma FieldRoundTrip(literal: string, n: nat, rest: string, size: nat)
    requires n < size && (rest == "" || !IsDigit(rest[0]))
    ensures ParseField(literal + (Decimal(n) + rest), literal, size) == Some((n, rest))
  {
    assert (literal + (Decimal(n) + rest))[|literal|..] == Decimal(n) + rest;
    ScanPrinted(n, rest, size);
  }

  // Text after the third number is dropped, so the parameters come back whatever follows them.
  lemma ParamsRoundTrip(m: nat, t: nat, p: nat, rest: string)
    requires m < UINT32 && t < UINT32 && p < UINT8 && (rest == "" || !IsDigit(rest[0]))
    ensures ParseParams(ParamsText(m, t, p, rest)) == Some((m, t, p))
  {
    var afterT := ",p=" + (Decimal(p) + rest);
    var afterM := ",t=" + (Decimal(t) + afterT);
    FieldRoundTrip("m=", m, afterM, UINT32);
    FieldRoundTrip(",t=", t, afterT, UINT32);
    FieldRoundTrip(",p=", p, rest, UINT8);
  }

  lemma ParamsFree(m: nat, t: nat, p: nat, rest: string)
    requires Free(rest, '$')
    ensures Free(ParamsText(m, t, p, rest), '$')
  {
    FieldFree(",p=", p, rest);
    FieldFree(",t=", t, ",p=" + (Decimal(p) + rest));
    FieldFree("m=", m, ",t=" + (Decimal(t) + (",p=" + (Decimal(p) + rest))));
  }

  lemma FieldFree(literal: string, n: nat, rest: string)
    requires Free(literal, '$') && Free(rest, '$')
    ensures Free(literal + (Decimal(n) + rest), '$')
  {
    DecimalDigits(n);
    FreeConcat(Decimal(n), rest, '$');
    FreeConcat(literal, Decimal(n) + rest, '$');
  }

  lemma VersionRoundTrip(rest: string)
    requires rest == "" || !IsDigit(rest[0])
    ensures ParseVersion(VersionText(rest)) == Some(VERSION)
  {
    assert VersionText(rest)[2..] == Decimal(VERSION) + rest;
    ScanPrinted(VERSION, rest, VERSION + 1);
  }

  lemma PartsSplit(m: nat, t: nat, p: nat, salt: seq<byte>, key: seq<byte>, afterVersion: string, afterParams: string)
    requires Free(afterVersion, '$') && Free(afterParams, '$')
    ensures var parts := Parts(m, t, p, salt, key, afterVersion, afterParams);
            Split(Join(parts, '$'), '$') == parts
  {
    FieldFree("v=", VERSION, afterVersion);
    ParamsFree(m, t, p, afterParams);
    DecodeInverts(salt);
    DecodeInverts(key);
    SplitInvertsJoin(Parts(m, t, p, salt, key, afterVersion, afterParams), '$');
  }

  /**
   Parsing is loose: text behind the version number or behind the parallelism changes nothing, so one decoded hash
   has many spellings.
   */
  lemma TrailingTextIgnored(m: nat, t: nat, p: nat, salt: seq<byte>, key: seq<byte>,
                            afterVersion: string, afterParams: string)
    requires m < UINT32 && t < UINT32 && p < UINT8
    requires Free(afterVersion, '$') && (afterVersion == "" || !IsDigit(afterVersion[0]))
    requires Free(afterParams, '$') && (afterParams == "" || !IsDigit(afterParams[0]))
    ensures DecodeHash(Join(Parts(m, t, p, salt, key, afterVersion, afterParams), '$'))
            == Ok(Decoded(Params(m, t, p, |salt| % UINT32, |key| % UINT32), salt, key))
  {
    PartsSplit(m, t, p, salt, key, afterVersion, afterParams);
    VersionRoundTrip(afterVersion);
    ParamsRoundTrip(m, t, p, afterParams);
    DecodeInverts(salt);
    DecodeInverts(key);
  }

  /** Parsing a printed hash returns the parameters, salt and key it was printed from, whatever their lengths. */
  lemma DecodeInvertsFormat(m: nat, t: nat, p: nat, salt: seq<byte>, key: seq<byte>)
    requires m < UINT32 && t < UINT32 && p < UINT8
    ensures DecodeHash(Format(m, t, p, salt, key))
            == Ok(Decoded(Params(m, t, p, |salt| % UINT32, |key| % UINT32), salt, key))
  {
    TrailingTextIgnored(m, t, p, salt, key, "", "");
  }

  lemma ParsedInRange(part: string)
    requires ParseParams(part).Some?
    ensures var (m, t, p) := ParseParams(part).value; m < UINT32 && t < UINT32 && p < UINT8
  {
  }

  /** However a hash was spelled, printing what was parsed and parsing that again gives the same. */
  lemma ReprintingNormalises(encoded: string)
    requires DecodeHash(encoded).Ok?
    ensures var d := DecodeHash(encoded).value;
            DecodeHash(Format(d.params.memory, d.params.iterations, d.params.parallelism, d.salt, d.key))
            == DecodeHash(encoded)
  {
    var d := DecodeHash(encoded).value;
    ParsedInRange(Split(encoded, '$')[3]);
    DecodeInvertsFormat(d.params.memory, d.params.iterations, d.params.parallelism, d.salt, d.key);
  }

  lemma CompareDecoded(kdf: Derivation, p: Params, salt: seq<byte>, key: seq<byte>, decoded: Result<Decoded>, attempt: string)
    requires p.Valid() && |key| == p.keyLength
    requires decoded == Ok(Decoded(Params(p.memory, p.iterations, p.parallelism, |salt| % UINT32, |key| % UINT32), salt, key))
    ensures Compare(kdf, attempt, decoded).Ok? <==>
            kdf(attempt, salt, p.iterations, p.memory, p.parallelism, p.keyLength) == key
  {
  }

  lemma FormatNonEmpty(m: nat, t: nat, p: nat, salt: seq<byte>, key: seq<byte>)
    ensures Format(m, t, p, salt, key) != ""
  {
  }

  /** A hash verifies against exactly the non-empty passwords that derive the same key, the original among them. */
  lemma VerifyIff(kdf: Derivation, p: Params, password: string, salt: seq<byte>, attempt: string)
    requires p.Valid() && password != ""
    requires |kdf(password, salt, p.iterations, p.memory, p.parallelism, p.keyLength)| == p.keyLength
    ensures Hash(kdf, p, password, Some(salt)).Ok?
    ensures Verify(kdf, attempt, Hash(kdf, p, password, Some(salt)).value).Ok? <==>
            attempt != "" &&
            kdf(attempt, salt, p.iterations, p.memory, p.parallelism, p.keyLength)
            == kdf(password, salt, p.iterations, p.memory, p.parallelism, p.keyLength)
  {
    if attempt != "" {
      var key := kdf(password, salt, p.iterations, p.memory, p.parallelism, p.keyLength);
      var encoded := Hash(kdf, p, password, Some(salt)).value;
      DecodeInvertsFormat(p.memory, p.iterations, p.parallelism, salt, key);
      FormatNonEmpty(p.memory, p.iterations, p.parallelism, salt, key);
      CompareDecoded(kdf, p, salt, key, DecodeHash(encoded), attempt);
    }
  }

  /**
   The hashes accepted: six parts, the one algorithm, version 19, parameters that fit their variables and decodable salt
   and key; the first part to break this decides the error.
   */
  lemma AcceptedIff(encoded: string)
    ensures var parts, d := Split(encoded, '$'), DecodeHash(encoded);
            if |parts| != 6 then d == Err(InvalidHash)
            else if parts[1] != "argon2id" then d == Err(UnsupportedAlgorithm(parts[1]))
            else if ParseVersion(parts[2]) == None then d == Err(InvalidVersion)
            else if ParseVersion(parts[2]) != Some(19) then d == Err(IncompatibleVersion(ParseVersion(parts[2]).value))
            else if ParseParams(parts[3]) == None then d == Err(InvalidParameters)
            else if Decode(parts[4]) == None then d == Err(InvalidSalt)
            else if Decode(parts[5]) == None then d == Err(InvalidKey)
            else d.Ok? && d.value.salt == Decode(parts[4]).value && d.value.key == Decode(parts[5]).value
                 && ParseParams(parts[3]) == Some((d.value.params.memory, d.value.params.iterations, d.value.params.parallelism))
  {
  }

  /** Hashing fails only for an empty password or without randomness; otherwise it prints what was derived. */
  lemma HashOutcome(kdf: Derivation, p: Params, password: string, salt: Option<seq<byte>>)
    ensures Hash(kdf, p, password, salt)
            == if password == "" then Err(EmptyPassword)
               else if salt == None then Err(NoRandomness)
               else Ok(Format(p.memory, p.iterations, p.parallelism, salt.value,
                              kdf(password, salt.value, p.iterations, p.memory, p.parallelism, p.keyLength)))
  {
  }

  /** Verifying any text: empty inputs and unparsable hashes are errors, and else the derived key decides. */
  lemma VerifyOutcome(kdf: Derivation, password: string, encoded: string)
    ensures var outcome, decoded := Verify(kdf, password, encoded), DecodeHash(encoded);
            if password == "" then outcome == Err(EmptyPassword)
            else if encoded == "" then outcome == Err(EmptyHash)
            else if decoded.Err? then outcome == Err(decoded.error)
            else
              var d := decoded.value;
              outcome == if kdf(password, d.salt, d.params.iterations, d.params.memory, d.params.parallelism, |d.key| % UINT32)
                            == d.key
                         then Ok(()) else Err(Mismatch)
  {
  }

  /** A parameter its variable cannot hold makes the whole hash invalid. */
  lemma OversizedRefused(m: nat, t: nat, p: nat, salt: seq<byte>, key: seq<byte>)
    requires m >= UINT32 || t >= UINT32 || p >= UINT8
    ensures DecodeHash(Format(m, t, p, salt, key)) == Err(InvalidParameters)
  {
    PartsSplit(m, t, p, salt, key, "", "");
    VersionRoundTrip("");
    OversizedField(m, t, p);
  }

  lemma OversizedField(m: nat, t: nat, p: nat)
    requires m >= UINT32 || t >= UINT32 || p >= UINT8
    ensures ParseParams(ParamsText(m, t, p, "")) == None
  {
    var afterT := ",p=" + (Decimal(p) + "");
    var afterM := ",t=" + (Decimal(t) + afterT);
    FieldAny("m=", m, afterM, UINT32);
    FieldAny(",t=", t, afterT, UINT32);
    FieldAny(",p=", p, "", UINT8);
  }

  lemma FieldAny(literal: string, n: nat, rest: string, size: nat)
    requires rest == "" || !IsDigit(rest[0])
    ensures ParseField(literal + (Decimal(n) + rest), literal, size) == if n < size then Some((n, rest)) else None
  {
    assert (literal + (Decimal(n) + rest))[|literal|..] == Decimal(n) + rest;
    if n < size {
      ScanPrinted(n, rest, size);
    } else {
      ScanTooLarge(n, rest, size);
    }
  }

  /** Two different hashes never print alike. */
  lemma FormatIsInjective(m: nat, t: nat, p: nat, salt: seq<byte>, key: seq<byte>,
                          m': nat, t': nat, p': nat, salt': seq<byte>, key': seq<byte>)
    requires m < UINT32 && t < UINT32 && p < UINT8 && m' < UINT32 && t' < UINT32 && p' < UINT8
    requires Format(m, t, p, salt, key) == Format(m', t', p', salt', key')
    ensures (m, t, p, salt, key) == (m', t', p', salt', key')
  {
    DecodeInvertsFormat(m, t, p, salt, key);
    DecodeInvertsFormat(m', t', p', salt', key');
  }
}
