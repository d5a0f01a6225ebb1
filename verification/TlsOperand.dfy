// internal/tls/operand.go: translation of the effective TLS profile into the operand's options.
module TlsOperand {
  import opened Outcome
  import opened Sequences
  import opened Text
  import opened TlsPolicy

  // trainertls.TLSOptions
  datatype TlsOptions = TlsOptions(minVersion: string, cipherSuites: seq<string>, curvePreferences: seq<int>)

  datatype CipherSuite = CipherSuite(id: int, name: string)

  // The lookup tables of the libraries: suite IDs by name, IANA names by OpenSSL name, the
  // secure and insecure suites of the Go runtime, and the comma-joined curve IDs of a profile.
  datatype Tables = Tables(
    suiteId: map<string, int>,
    ianaName: map<string, string>,
    secure: seq<CipherSuite>,
    insecure: seq<CipherSuite>,
    curves: Profile -> Result<string>)

  // --- Cipher suites ---

  function ResolveCipherID(tables: Tables, name: string): Option<int> {
    if name in tables.suiteId then Some(tables.suiteId[name])
    else if name in tables.ianaName && tables.ianaName[name] in tables.suiteId then
      Some(tables.suiteId[tables.ianaName[name]])
    else None
  }

  function NameIn(suites: seq<CipherSuite>, id: int): Option<string> {
    if suites == [] then None
    else if suites[0].id == id then Some(suites[0].name)
    else NameIn(suites[1..], id)
  }

  // goCipherName: the secure table is searched before the insecure one.
  function GoCipherName(tables: Tables, id: int): Option<string> {
    match NameIn(tables.secure, id)
    case Some(name) => Some(name)
    case None => NameIn(tables.insecure, id)
  }

  function Rc4CipherIDs(tables: Tables): set<int> {
    set suite <- tables.insecure | Contains(suite.name, "RC4") :: suite.id
  }

  predicate IsTls13CipherID(id: int) {
    0x1301 <= id <= 0x1304
  }

  // The Go name under which a profile's cipher is handed on, if it is.
  function Kept(tables: Tables, name: string): Option<string> {
    match ResolveCipherID(tables, name)
    case None => None
    case Some(id) =>
      if id in Rc4CipherIDs(tables) || IsTls13CipherID(id) then None else GoCipherName(tables, id)
  }

  function TranslateCiphers(tables: Tables, ciphers: seq<string>): seq<string> {
    if ciphers == [] then []
    else
      var last := ciphers[|ciphers| - 1];
      TranslateCiphers(tables, ciphers[..|ciphers| - 1]) +
      match Kept(tables, last) case Some(name) => [name] case None => []
  }

  lemma {:induction false} TranslateConcat(tables: Tables, a: seq<string>, b: seq<string>)
    ensures TranslateCiphers(tables, a + b) == TranslateCiphers(tables, a) + TranslateCiphers(tables, b)
    decreases |b|
  {
    if b == [] {
      assert a + b == a;
    } else {
      assert (a + b)[..|a + b| - 1] == a + b[..|b| - 1];
      TranslateConcat(tables, a, b[..|b| - 1]);
    }
  }

  // The name has this ID in the table, by itself or, if it is not there, by its IANA name.
  predicate HasID(tables: Tables, cipher: string, id: int) {
    if cipher in tables.suiteId then tables.suiteId[cipher] == id
    else
      && cipher in tables.ianaName && tables.ianaName[cipher] in tables.suiteId
      && tables.suiteId[tables.ianaName[cipher]] == id
  }

  // The first suite of that ID in the list has that name.
  ghost predicate FirstNamed(suites: seq<CipherSuite>, id: int, name: string) {
    exists i | 0 <= i < |suites| :: suites[i] == CipherSuite(id, name) && forall j | 0 <= j < i :: suites[j].id != id
  }

  ghost predicate NoSuite(suites: seq<CipherSuite>, id: int) {
    forall suite <- suites :: suite.id != id
  }

  // A cipher of a profile is handed on under a Go name: it has an ID that is neither one of TLS 1.3 nor that
  // of an RC4 suite, and the name is that of the first secure suite of the ID, or of the first
  // insecure one if there is no secure one.
  ghost predicate HandedOn(tables: Tables, cipher: string, id: int, goName: string) {
    && HasID(tables, cipher, id)
    && !(0x1301 <= id <= 0x1304)
    && (forall suite <- tables.insecure | suite.id == id :: !Contains(suite.name, "RC4"))
    && (FirstNamed(tables.secure, id, goName) ||
        (NoSuite(tables.secure, id) && FirstNamed(tables.insecure, id, goName)))
  }

  lemma {:induction false} NameInFirst(suites: seq<CipherSuite>, id: int, name: string)
    ensures NameIn(suites, id) == Some(name) <==> FirstNamed(suites, id, name)
    ensures NameIn(suites, id) == None <==> NoSuite(suites, id)
  {
    if suites != [] {
      var rest := suites[1..];
      NameInFirst(rest, id, name);
      assert suites[0] in suites && forall suite <- rest :: suite in suites;
      if suites[0].id == id {
        if suites[0].name == name {
          assert suites[0] == CipherSuite(id, name);
        }
      } else {
        if i :| 0 <= i < |rest| && rest[i] == CipherSuite(id, name) && forall j | 0 <= j < i :: rest[j].id != id {
          assert suites[i + 1] == CipherSuite(id, name);
          assert forall j | 0 < j < i + 1 :: suites[j] == rest[j - 1];
        }
        if i :| 0 <= i < |suites| && suites[i] == CipherSuite(id, name) && forall j | 0 <= j < i :: suites[j].id != id {
          assert rest[i - 1] == CipherSuite(id, name);
          assert forall j | 0 <= j < i - 1 :: rest[j] == suites[j + 1];
        }
      }
    }
  }

  lemma KeptMeans(tables: Tables, cipher: string, goName: string)
    ensures Kept(tables, cipher) == Some(goName) <==> exists id :: HandedOn(tables, cipher, id, goName)
  {
    var resolved := ResolveCipherID(tables, cipher);
    forall id
      ensures HasID(tables, cipher, id) <==> resolved == Some(id)
    {
    }
    if resolved.Some? {
      var id := resolved.value;
      NameInFirst(tables.secure, id, goName);
      NameInFirst(tables.insecure, id, goName);
      if Kept(tables, cipher) == Some(goName) {
        assert HandedOn(tables, cipher, id, goName);
      }
    }
  }

  // One cipher becomes one name, or none if it is not handed on.
  lemma TranslateOne(tables: Tables, cipher: string)
    ensures TranslateCiphers(tables, [cipher]) == [] || exists goName :: TranslateCiphers(tables, [cipher]) == [goName]
    ensures forall goName ::
      TranslateCiphers(tables, [cipher]) == [goName] <==> exists id :: HandedOn(tables, cipher, id, goName)
  {
    assert [cipher][..0] == [];
    forall goName
      ensures TranslateCiphers(tables, [cipher]) == [goName] <==> exists id :: HandedOn(tables, cipher, id, goName)
    {
      KeptMeans(tables, cipher, goName);
      match Kept(tables, cipher) {
        case None =>
        case Some(name) =>
          assert TranslateCiphers(tables, [cipher]) == [name];
          assert [name] == [goName] ==> [name][0] == [goName][0];
      }
    }
  }

  // The output consists of the Go names of the inputs that are handed on.
  lemma {:induction false} TranslateMembers(tables: Tables, ciphers: seq<string>, goName: string)
    ensures goName in TranslateCiphers(tables, ciphers) <==>
      exists cipher, id :: cipher in ciphers && HandedOn(tables, cipher, id, goName)
  {
    if ciphers != [] {
      var init, last := ciphers[..|ciphers| - 1], ciphers[|ciphers| - 1];
      assert ciphers == init + [last];
      Snoc(init, last);
      TranslateMembers(tables, init, goName);
      KeptMeans(tables, last, goName);
    }
  }

  // Looking up a name that the Go runtime gives a suite returns that suite's own ID.
  ghost predicate Coherent(tables: Tables) {
    forall suite <- tables.secure + tables.insecure ::
      suite.name in tables.suiteId && tables.suiteId[suite.name] == suite.id
  }

  lemma {:induction false} NameInSuite(suites: seq<CipherSuite>, id: int)
    ensures NameIn(suites, id).Some? <==> exists suite <- suites :: suite.id == id
    ensures NameIn(suites, id).Some? ==> CipherSuite(id, NameIn(suites, id).value) in suites
  {
    if suites != [] && suites[0].id != id {
      NameInSuite(suites[1..], id);
    } else if suites != [] {
      assert suites[0] == CipherSuite(id, suites[0].name);
    }
  }

  lemma KeptAgain(tables: Tables, cipher: string)
    requires Coherent(tables) && Kept(tables, cipher).Some?
    ensures Kept(tables, Kept(tables, cipher).value) == Kept(tables, cipher)
    ensures !exists suite <- tables.insecure ::
      suite.name == Kept(tables, cipher).value && Contains(suite.name, "RC4")
  {
    var id := ResolveCipherID(tables, cipher).value;
    var name := Kept(tables, cipher).value;
    NameInSuite(tables.secure, id);
    NameInSuite(tables.insecure, id);
    var suite := CipherSuite(id, name);
    assert suite in tables.secure + tables.insecure;
    forall s | s in tables.insecure && s.name == name
      ensures s.id == id
    {
      assert s in tables.secure + tables.insecure;
    }
  }

  // Translating a translated list changes nothing, and no RC4 suite of the runtime is in it.
  lemma {:induction false} TranslateIdempotent(tables: Tables, ciphers: seq<string>)
    requires Coherent(tables)
    ensures TranslateCiphers(tables, TranslateCiphers(tables, ciphers)) == TranslateCiphers(tables, ciphers)
    ensures forall suite <- tables.insecure | Contains(suite.name, "RC4") ::
      suite.name !in TranslateCiphers(tables, ciphers)
  {
    if ciphers != [] {
      var init, last := ciphers[..|ciphers| - 1], ciphers[|ciphers| - 1];
      TranslateIdempotent(tables, init);
      match Kept(tables, last) {
        case None =>
          assert TranslateCiphers(tables, init) + [] == TranslateCiphers(tables, init);
        case Some(name) =>
          KeptAgain(tables, last);
          TranslateConcat(tables, TranslateCiphers(tables, init), [name]);
          assert [name][..0] == [];
          assert TranslateCiphers(tables, [name]) == [name];
      }
    }
  }

  // --- Curves ---

  predicate IsDigit(c: char) {
    '0' <= c <= '9'
  }

  function DigitValue(c: char): nat
    requires IsDigit(c)
  {
    c as int - '0' as int
  }

  // A decimal numeral as strconv accepts it in base 10: an optional sign and digits.
  predicate IsNumeral(s: string) {
    var digits := if s != "" && s[0] in "+-" then s[1..] else s;
    digits != "" && forall c <- digits :: IsDigit(c)
  }

  function DigitsValue(digits: string): nat
    requires forall c <- digits :: IsDigit(c)
  {
    if digits == "" then 0
    else
      var last := digits[|digits| - 1];
      assert last in digits;
      10 * DigitsValue(digits[..|digits| - 1]) + DigitValue(last)
  }

  // The integer that a numeral denotes.
  function Denotes(s: string): int
    requires IsNumeral(s)
  {
    if s[0] == '-' then 0 - DigitsValue(s[1..]) as int
    else if s[0] == '+' then DigitsValue(s[1..])
    else DigitsValue(s)
  }

  const INT32_LIMIT := 0x8000_0000

  // strconv.ParseUint(s, 10, 32): the digits are read from the left, and a value that needs
  // more than 32 bits is out of range at once.
  method ParseUint32(s: string) returns (r: Result<nat>)
    ensures r.Success? <==> s != "" && (forall c <- s :: IsDigit(c)) && DigitsValue(s) < 2 * INT32_LIMIT
    ensures r.Success? ==> r.value == DigitsValue(s)
  {
    if s == "" {
      return Failure("invalid syntax");
    }
    var n: nat := 0;
    for i := 0 to |s|
      invariant forall c <- s[..i] :: IsDigit(c)
      invariant n == DigitsValue(s[..i]) < 2 * INT32_LIMIT
    {
      if !IsDigit(s[i]) {
        return Failure("invalid syntax");
      }
      assert s[..i + 1][..i] == s[..i];
      n := 10 * n + DigitValue(s[i]);
      if n >= 2 * INT32_LIMIT {
        if forall c <- s :: IsDigit(c) {
          ValueGrows(s, i + 1);
        }
        return Failure("value out of range");
      }
    }
    assert s[..|s|] == s;
    return Success(n);
  }

  lemma {:induction false} ValueGrows(digits: string, i: nat)
    requires i <= |digits| && forall c <- digits :: IsDigit(c)
    ensures DigitsValue(digits[..i]) <= DigitsValue(digits)
  {
    if i == |digits| {
      assert digits[..i] == digits;
    } else {
      assert IsDigit(digits[|digits| - 1]) by {
        assert digits[|digits| - 1] in digits;
      }
      ValueGrows(digits[..|digits| - 1], i);
      assert digits[..|digits| - 1][..i] == digits[..i];
    }
  }

  // What strconv.ParseInt(s, 10, 32) accepts, and as what.
  function ParsedInt32(s: string): Result<int> {
    if IsNumeral(s) && -INT32_LIMIT <= Denotes(s) < INT32_LIMIT then Success(Denotes(s))
    else Failure("parsing curve ID")
  }

  method ParseInt32(s: string) returns (r: Result<int>)
    ensures r == ParsedInt32(s)
  {
    if s == "" {
      return Failure("parsing curve ID");
    }
    var neg := s[0] == '-';
    var digits := if s[0] == '-' || s[0] == '+' then s[1..] else s;
    var un := ParseUint32(digits);
    if un.Failure? {
      return Failure("parsing curve ID");
    }
    if !neg && un.value >= INT32_LIMIT {
      return Failure("parsing curve ID");
    }
    if neg && un.value > INT32_LIMIT {
      return Failure("parsing curve ID");
    }
    return Success(if neg then -un.value else un.value);
  }

  // The accepted fields of a split text, in order; empty fields are skipped.
  function ParseFields(fields: seq<string>): Result<seq<int>> {
    if fields == [] then Success([])
    else
      var init, last := fields[..|fields| - 1], fields[|fields| - 1];
      match ParseFields(init)
      case Failure(e) => Failure(e)
      case Success(codes) =>
        if last == "" then Success(codes)
        else
          match ParsedInt32(last)
          case Failure(e) => Failure(e)
          case Success(code) => Success(codes + [code])
  }

  function ParseCurves(text: string): Result<seq<int>> {
    ParseFields(Split(text, ','))
  }

  // The decimal text of a number, as strconv writes it.
  function Decimal(n: nat): string {
    var digit := [('0' as int + n % 10) as char];
    if n < 10 then digit else Decimal(n / 10) + digit
  }

  // The text that the framework hands over for a list of group IDs.
  function CurveText(ids: seq<nat>): string {
    Join(seq(|ids|, i requires 0 <= i < |ids| => Decimal(ids[i])), ',')
  }

  lemma {:induction false} DecimalParses(n: nat)
    ensures Decimal(n) != "" && (forall c <- Decimal(n) :: IsDigit(c))
    ensures DigitsValue(Decimal(n)) == n
  {
    if n >= 10 {
      DecimalParses(n / 10);
      assert Decimal(n)[..|Decimal(n)| - 1] == Decimal(n / 10);
    }
  }

  lemma DecimalAccepted(n: nat)
    requires n < INT32_LIMIT
    ensures Decimal(n) != "" && ',' !in Decimal(n) && ParsedInt32(Decimal(n)) == Success(n)
  {
    DecimalParses(n);
    assert Decimal(n)[0] in Decimal(n);
  }

  lemma {:induction false} FieldsParse(fields: seq<string>, ids: seq<nat>)
    requires |fields| == |ids|
    requires forall i | 0 <= i < |ids| :: ids[i] < INT32_LIMIT && fields[i] == Decimal(ids[i])
    ensures ParseFields(fields) == Success(ids)
  {
    if fields != [] {
      var n := |ids| - 1;
      FieldsParse(fields[..n], ids[..n]);
      DecimalAccepted(ids[n]);
      assert ids == ids[..n] + [ids[n]];
    }
  }

  // Every list of group IDs survives the trip through its comma-joined decimal text.
  lemma CurveRoundTrip(ids: seq<nat>)
    requires forall id <- ids :: id < 0x1_0000
    ensures ParseCurves(CurveText(ids)) == Success(ids)
  {
    var fields := seq(|ids|, i requires 0 <= i < |ids| => Decimal(ids[i]));
    forall i | 0 <= i < |ids|
      ensures ids[i] < INT32_LIMIT && ',' !in fields[i]
    {
      assert ids[i] in ids;
      DecimalAccepted(ids[i]);
    }
    if ids == [] {
      assert ParseFields([]) == Success([]);
      assert Split("", ',') == [""] && [""][..0] == [];
    } else {
      SplitJoin(fields, ',');
      FieldsParse(fields, ids);
    }
  }

  function NonEmpty(fields: seq<string>): seq<string> {
    if fields == [] then []
    else
      var last := fields[|fields| - 1];
      NonEmpty(fields[..|fields| - 1]) + if last == "" then [] else [last]
  }

  predicate FitsInt32(f: string) {
    IsNumeral(f) && -INT32_LIMIT <= Denotes(f) < INT32_LIMIT
  }

  predicate AllFit(fields: seq<string>) {
    forall i | 0 <= i < |fields| :: FitsInt32(fields[i])
  }

  // The codes are, in order, the numbers that the fields denote.
  ghost predicate CodesOf(codes: seq<int>, fields: seq<string>)
    requires AllFit(fields)
  {
    |codes| == |fields| && forall i | 0 <= i < |codes| :: codes[i] == Denotes(fields[i])
  }

  lemma {:induction false} FieldsAccepted(fields: seq<string>)
    ensures ParseFields(fields).Success? <==> AllFit(NonEmpty(fields))
    ensures ParseFields(fields).Success? ==> CodesOf(ParseFields(fields).value, NonEmpty(fields))
  {
    if fields != [] {
      var init, last := fields[..|fields| - 1], fields[|fields| - 1];
      FieldsAccepted(init);
      if last == "" {
        assert NonEmpty(fields) == NonEmpty(init);
      } else {
        var all := NonEmpty(fields);
        assert all == NonEmpty(init) + [last];
        assert all[..|all| - 1] == NonEmpty(init) && all[|all| - 1] == last;
        assert forall i | 0 <= i < |NonEmpty(init)| :: NonEmpty(init)[i] == all[i];
      }
    }
  }

  // A text is accepted exactly when each of its non-empty fields is a numeral that fits in 32
  // signed bits. The codes are, in order, the numbers those fields denote: none has wrapped.
  lemma CurvesAccepted(text: string)
    ensures ParseCurves(text).Success? <==> AllFit(NonEmpty(Split(text, ',')))
    ensures ParseCurves(text).Success? ==>
      && CodesOf(ParseCurves(text).value, NonEmpty(Split(text, ',')))
      && forall code <- ParseCurves(text).value :: -INT32_LIMIT <= code < INT32_LIMIT
  {
    FieldsAccepted(Split(text, ','));
  }

  // A sign goes with the number, and the range is that of 32 signed bits.
  lemma SignsParse(n: nat)
    ensures ParsedInt32(Decimal(n)) == Success(n) <==> n <= 2147483647
    ensures ParsedInt32("+" + Decimal(n)) == Success(n) <==> n <= 2147483647
    ensures ParsedInt32("-" + Decimal(n)) == Success(-(n as int)) <==> n <= 2147483648
    ensures ParsedInt32(Decimal(n)).Success? <==> n <= 2147483647
    ensures ParsedInt32("+" + Decimal(n)).Success? <==> n <= 2147483647
    ensures ParsedInt32("-" + Decimal(n)).Success? <==> n <= 2147483648
  {
    DecimalParses(n);
    var d := Decimal(n);
    assert IsDigit(d[0]) by {
      assert d[0] in d;
    }
    assert ("-" + d)[1..] == d && ("+" + d)[1..] == d;
  }

  // Nothing but digits may follow an optional sign.
  lemma OtherCharactersFail(s: string, i: nat)
    requires i < |s| && s[i] !in "0123456789" && (i == 0 ==> s[0] !in "+-")
    ensures ParsedInt32(s).Failure?
  {
    var digits := if s[0] in "+-" then s[1..] else s;
    var j := if s[0] in "+-" then i - 1 else i;
    assert digits[j] == s[i] && digits[j] in digits;
    assert !IsDigit(s[i]) by {
      if IsDigit(s[i]) {
        DigitsAre(s[i]);
      }
    }
  }

  lemma DigitsAre(c: char)
    requires IsDigit(c)
    ensures c in "0123456789"
  {
    assert c == "0123456789"[DigitValue(c)];
  }

  // Exactly the empty fields are skipped.
  lemma {:induction false} NonEmptyConcat(a: seq<string>, b: seq<string>, field: string)
    ensures NonEmpty(a + b) == NonEmpty(a) + NonEmpty(b)
    ensures NonEmpty([field]) == if |field| == 0 then [] else [field]
    decreases |b|
  {
    assert [field][..0] == [];
    if b == [] {
      assert a + b == a;
    } else {
      assert (a + b)[..|a + b| - 1] == a + b[..|b| - 1];
      NonEmptyConcat(a, b[..|b| - 1], field);
    }
  }

  // --- TranslateProfile ---

  // operandMinVersions; an unknown version has no entry and becomes the empty text.
  function OperandMinVersion(version: string): string {
    match version
    case "VersionTLS10" => "1.0"
    case "VersionTLS11" => "1.1"
    case "VersionTLS12" => "1.2"
    case "VersionTLS13" => "1.3"
    case _ => ""
  }

  function Translated(tables: Tables, profile: Profile): Result<TlsOptions> {
    match tables.curves(profile)
    case Failure(_) => Failure("translating TLS groups")
    case Success(text) =>
      match ParseCurves(text)
      case Failure(e) => Failure(e)
      case Success(codes) =>
        Success(TlsOptions(OperandMinVersion(profile.minVersion), TranslateCiphers(tables, profile.ciphers), codes))
  }

  // The minimum version that the operand is given.
  predicate GivenVersion(version: string, given: string) {
    && (version == "VersionTLS10" ==> given == "1.0")
    && (version == "VersionTLS11" ==> given == "1.1")
    && (version == "VersionTLS12" ==> given == "1.2")
    && (version == "VersionTLS13" ==> given == "1.3")
    && (version !in {"VersionTLS10", "VersionTLS11", "VersionTLS12", "VersionTLS13"} ==> given == "")
  }

  // A profile is translated unless its curves are not supported or not numbers in range. The
  // curves keep their order, the ciphers are translated one by one, and the version by the table.
  lemma TranslatedMeans(tables: Tables, profile: Profile)
    ensures Translated(tables, profile).Success? <==>
      tables.curves(profile).Success? && AllFit(NonEmpty(Split(tables.curves(profile).value, ',')))
    ensures Translated(tables, profile).Success? ==>
      var opts := Translated(tables, profile).value;
      && GivenVersion(profile.minVersion, opts.minVersion)
      && CodesOf(opts.curvePreferences, NonEmpty(Split(tables.curves(profile).value, ',')))
      && opts.cipherSuites == TranslateCiphers(tables, profile.ciphers)
      && (forall goName ::
            goName in opts.cipherSuites <==>
            exists cipher, id :: cipher in profile.ciphers && HandedOn(tables, cipher, id, goName))
  {
    if tables.curves(profile).Success? {
      CurvesAccepted(tables.curves(profile).value);
    }
    forall goName
      ensures goName in TranslateCiphers(tables, profile.ciphers) <==>
        exists cipher, id :: cipher in profile.ciphers && HandedOn(tables, cipher, id, goName)
    {
      TranslateMembers(tables, profile.ciphers, goName);
    }
  }

  method TranslateProfile(tables: Tables, profile: Profile) returns (r: Result<TlsOptions>)
    ensures r == Translated(tables, profile)
  {
    var curves := tables.curves(profile);
    if curves.Failure? {
      return Failure("translating TLS groups");
    }
    var fields := Split(curves.value, ',');
    var codes: seq<int> := [];
    for i := 0 to |fields|
      invariant ParseFields(fields[..i]) == Success(codes)
    {
      assert fields[..i + 1][..i] == fields[..i];
      if fields[i] == "" {
        continue;
      }
      var code := ParseInt32(fields[i]);
      if code.Failure? {
        FailureSticks(fields, i + 1);
        return Failure(code.error);
      }
      codes := codes + [code.value];
    }
    assert fields[..|fields|] == fields;

    var suites: seq<string> := [];
    for i := 0 to |profile.ciphers|
      invariant suites == TranslateCiphers(tables, profile.ciphers[..i])
    {
      assert profile.ciphers[..i + 1][..i] == profile.ciphers[..i];
      var id := ResolveCipherID(tables, profile.ciphers[i]);
      if id.None? || id.value in Rc4CipherIDs(tables) || IsTls13CipherID(id.value) {
        continue;
      }
      var goName := GoCipherName(tables, id.value);
      if goName.Some? {
        suites := suites + [goName.value];
      }
    }
    assert profile.ciphers[..|profile.ciphers|] == profile.ciphers;
    return Success(TlsOptions(OperandMinVersion(profile.minVersion), suites, codes));
  }

  lemma {:induction false} FailureSticks(fields: seq<string>, i: nat)
    requires i <= |fields| && ParseFields(fields[..i]).Failure?
    ensures ParseFields(fields) == ParseFields(fields[..i])
  {
    if i == |fields| {
      assert fields[..i] == fields;
    } else {
      assert fields[..|fields| - 1][..i] == fields[..i];
      FailureSticks(fields[..|fields| - 1], i);
    }
  }
}
