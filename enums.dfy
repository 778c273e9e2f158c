/**
 * The three configuration enums (channel Mode, register RegType, register
 * RegMode): Go `uint8` types with a name table, a number table, a parser
 * that lower-cases and trims its input, and a JSON codec. All three model
 * generations define them identically, so one definition serves them all.
 */
module Enums {
  import opened Basics
  import opened Text

  newtype Mode = x: int | 0 <= x < 0x100
  newtype RegType = x: int | 0 <= x < 0x100
  newtype RegMode = x: int | 0 <= x < 0x100

  const RTU: Mode := 1
  const TCP: Mode := 2
  const ENC: Mode := 3

  const COIL: RegType := 1
  const DISCRETE: RegType := 2
  const INPUT: RegType := 3
  const HOLDING: RegType := 4

  const RO: RegMode := 1
  const RW: RegMode := 2
  const WO: RegMode := 3

  const ModeNames: map<Mode, string> := map[1 := "rtu", 2 := "tcp", 3 := "enc"]
  const ModeValues: map<string, Mode> := map["rtu" := 1, "tcp" := 2, "enc" := 3]
  const RegTypeNames: map<RegType, string> := map[1 := "coil", 2 := "discrete", 3 := "input", 4 := "holding"]
  const RegTypeValues: map<string, RegType> := map["coil" := 1, "discrete" := 2, "input" := 3, "holding" := 4]
  const RegModeNames: map<RegMode, string> := map[1 := "ro", 2 := "rw", 3 := "wo"]
  const RegModeValues: map<string, RegMode> := map["ro" := 1, "rw" := 2, "wo" := 3]

  /** A parser's two results: the value (the zero value on failure) and whether the name was known. */
  datatype Parsed<T> = Parsed(value: T, ok: bool)

  // ---------------------------------------------------------------------------
  // Table-driven codec, shared by the three enums
  // ---------------------------------------------------------------------------

  /** The name table and the number table are inverse to each other, and every name is a lower-case word. */
  ghost predicate Codec<T>(names: map<T, string>, values: map<string, T>) {
    && (forall t :: t in names ==> names[t] in values && values[names[t]] == t)
    && (forall s :: s in values ==> values[s] in names && names[values[s]] == s)
    && (forall t :: t in names ==> LowerWord(names[t]))
  }

  /** Look the normalised input up in the number table. */
  function Lookup<T>(values: map<string, T>, zero: T, s: string): (p: Parsed<T>)
    ensures p.ok <==> Normalize(s) in values
    ensures p.ok ==> p.value == values[Normalize(s)]
    ensures !p.ok ==> p.value == zero
  {
    var key := Normalize(s);
    if key in values then Parsed(values[key], true) else Parsed(zero, false)
  }

  /** Name of a value, or "" for a value outside the table (Go's missing-key zero value). */
  function Name<T>(names: map<T, string>, t: T): (s: string)
    ensures t in names ==> s == names[t]
    ensures t !in names ==> s == ""
  {
    if t in names then names[t] else ""
  }

  /** Parsing a value's name gives the value back. */
  lemma LookupName<T>(names: map<T, string>, values: map<string, T>, zero: T, t: T)
    requires Codec(names, values) && t in names
    ensures Lookup(values, zero, Name(names, t)) == Parsed(t, true)
  {
    NormalizeLowerWord(names[t]);
  }

  /** A successful parse names its value: the value's name is the normalised input. */
  lemma NameLookup<T>(names: map<T, string>, values: map<string, T>, zero: T, s: string)
    requires Codec(names, values)
    ensures Lookup(values, zero, s).ok ==> Name(names, Lookup(values, zero, s).value) == Normalize(s)
    ensures !Lookup(values, zero, s).ok ==> Lookup(values, zero, s).value == zero
  {
  }

  /** Parsing ignores surrounding whitespace and the case of ASCII letters. */
  lemma LookupInsensitive<T>(values: map<string, T>, zero: T, w1: string, s: string, w2: string)
    requires AllSpace(w1) && AllSpace(w2)
    ensures Lookup(values, zero, w1 + ToUpper(s) + w2) == Lookup(values, zero, s)
  {
    NormalizePadded(w1, ToUpper(s), w2);
    NormalizeUpper(s);
  }

  // ---------------------------------------------------------------------------
  // The three enums
  // ---------------------------------------------------------------------------

  /** parseMode: exactly the three mode names are accepted after normalisation; anything else gives 0. */
  function ParseMode(s: string): (p: Parsed<Mode>)
    ensures p.ok <==> Normalize(s) in {"rtu", "tcp", "enc"}
    ensures !p.ok ==> p.value == 0
    ensures Normalize(s) == "rtu" ==> p.value == RTU
    ensures Normalize(s) == "tcp" ==> p.value == TCP
    ensures Normalize(s) == "enc" ==> p.value == ENC
  {
    Lookup(ModeValues, 0, s)
  }

  /** Mode.String: the declared name, or "" outside 1..3. */
  function ModeString(m: Mode): (s: string)
    ensures s != "" <==> 1 <= m <= 3
  {
    Name(ModeNames, m)
  }

  /** parseRegType: exactly the four type names are accepted after normalisation; anything else gives 0. */
  function ParseRegType(s: string): (p: Parsed<RegType>)
    ensures p.ok <==> Normalize(s) in {"coil", "discrete", "input", "holding"}
    ensures !p.ok ==> p.value == 0
    ensures Normalize(s) == "coil" ==> p.value == COIL
    ensures Normalize(s) == "discrete" ==> p.value == DISCRETE
    ensures Normalize(s) == "input" ==> p.value == INPUT
    ensures Normalize(s) == "holding" ==> p.value == HOLDING
  {
    Lookup(RegTypeValues, 0, s)
  }

  /** RegType.String: the declared name, or "" outside 1..4. */
  function RegTypeString(t: RegType): (s: string)
    ensures s != "" <==> 1 <= t <= 4
  {
    Name(RegTypeNames, t)
  }

  /** parseRegMode: exactly the three mode names are accepted after normalisation; anything else gives 0. */
  function ParseRegMode(s: string): (p: Parsed<RegMode>)
    ensures p.ok <==> Normalize(s) in {"ro", "rw", "wo"}
    ensures !p.ok ==> p.value == 0
    ensures Normalize(s) == "ro" ==> p.value == RO
    ensures Normalize(s) == "rw" ==> p.value == RW
    ensures Normalize(s) == "wo" ==> p.value == WO
  {
    Lookup(RegModeValues, 0, s)
  }

  /** RegMode.String: the declared name, or "" outside 1..3. */
  function RegModeString(m: RegMode): (s: string)
    ensures s != "" <==> 1 <= m <= 3
  {
    Name(RegModeNames, m)
  }

  lemma ModeCodec()
    ensures Codec(ModeNames, ModeValues)
  {
    ModeTablesInverse();
    ModeNamesNormal();
  }

  lemma ModeTablesInverse()
    ensures forall t :: t in ModeNames ==> ModeNames[t] in ModeValues && ModeValues[ModeNames[t]] == t
    ensures forall s :: s in ModeValues ==> ModeValues[s] in ModeNames && ModeNames[ModeValues[s]] == s
  {
  }

  lemma ModeNamesNormal()
    ensures forall t :: t in ModeNames ==> LowerWord(ModeNames[t])
  {
  }

  lemma RegTypeCodec()
    ensures Codec(RegTypeNames, RegTypeValues)
  {
    RegTypeTablesInverse();
    RegTypeNamesNormal();
  }

  lemma RegTypeTablesInverse()
    ensures forall t :: t in RegTypeNames ==> RegTypeNames[t] in RegTypeValues && RegTypeValues[RegTypeNames[t]] == t
    ensures forall s :: s in RegTypeValues ==> RegTypeValues[s] in RegTypeNames && RegTypeNames[RegTypeValues[s]] == s
  {
  }

  lemma RegTypeNamesNormal()
    ensures forall t :: t in RegTypeNames ==> LowerWord(RegTypeNames[t])
  {
  }

  lemma RegModeCodec()
    ensures Codec(RegModeNames, RegModeValues)
  {
    RegModeTablesInverse();
    RegModeNamesNormal();
  }

  lemma RegModeTablesInverse()
    ensures forall t :: t in RegModeNames ==> RegModeNames[t] in RegModeValues && RegModeValues[RegModeNames[t]] == t
    ensures forall s :: s in RegModeValues ==> RegModeValues[s] in RegModeNames && RegModeNames[RegModeValues[s]] == s
  {
  }

  lemma RegModeNamesNormal()
    ensures forall t :: t in RegModeNames ==> LowerWord(RegModeNames[t])
  {
  }

  /** parseMode(m.String()) == m for RTU, TCP and ENC; a known name parses back to its value. */
  lemma ModeRoundTrip(m: Mode, s: string)
    ensures 1 <= m <= 3 ==> ParseMode(ModeString(m)) == Parsed(m, true)
    ensures ParseMode(s).ok ==> ModeString(ParseMode(s).value) == Normalize(s)
  {
    ModeCodec();
    if 1 <= m <= 3 {
      LookupName(ModeNames, ModeValues, 0, m);
    }
    NameLookup(ModeNames, ModeValues, 0, s);
  }

  /** parseRegType(t.String()) == t for the four register types; a known name parses back to its value. */
  lemma RegTypeRoundTrip(t: RegType, s: string)
    ensures 1 <= t <= 4 ==> ParseRegType(RegTypeString(t)) == Parsed(t, true)
    ensures ParseRegType(s).ok ==> RegTypeString(ParseRegType(s).value) == Normalize(s)
  {
    RegTypeCodec();
    if 1 <= t <= 4 {
      LookupName(RegTypeNames, RegTypeValues, 0, t);
    }
    NameLookup(RegTypeNames, RegTypeValues, 0, s);
  }

  /** parseRegMode(m.String()) == m for RO, RW and WO; a known name parses back to its value. */
  lemma RegModeRoundTrip(m: RegMode, s: string)
    ensures 1 <= m <= 3 ==> ParseRegMode(RegModeString(m)) == Parsed(m, true)
    ensures ParseRegMode(s).ok ==> RegModeString(ParseRegMode(s).value) == Normalize(s)
  {
    RegModeCodec();
    if 1 <= m <= 3 {
      LookupName(RegModeNames, RegModeValues, 0, m);
    }
    NameLookup(RegModeNames, RegModeValues, 0, s);
  }

  /** "rw" parses to RW. */
  lemma RwParses()
    ensures ParseRegMode("rw") == Parsed(RW, true)
  {
    RegModeRoundTrip(RW, "");
  }

  /** "coil" parses to COIL. */
  lemma CoilParses()
    ensures ParseRegType("coil") == Parsed(COIL, true)
  {
    RegTypeRoundTrip(COIL, "");
  }

  /** "discrete" parses to DISCRETE. */
  lemma DiscreteParses()
    ensures ParseRegType("discrete") == Parsed(DISCRETE, true)
  {
    RegTypeRoundTrip(DISCRETE, "");
  }

  /** The parsers ignore padding and letter case, e.g. " HOLDING " parses to HOLDING. */
  lemma ParsersInsensitive(w1: string, s: string, w2: string)
    requires AllSpace(w1) && AllSpace(w2)
    ensures ParseMode(w1 + ToUpper(s) + w2) == ParseMode(s)
    ensures ParseRegType(w1 + ToUpper(s) + w2) == ParseRegType(s)
    ensures ParseRegMode(w1 + ToUpper(s) + w2) == ParseRegMode(s)
    ensures ParseRegType(" HOLDING ") == Parsed(HOLDING, true)
  {
    LookupInsensitive(ModeValues, 0, w1, s, w2);
    LookupInsensitive(RegTypeValues, 0, w1, s, w2);
    LookupInsensitive(RegModeValues, 0, w1, s, w2);
    assert ToUpper("holding") == "HOLDING";
    assert " HOLDING " == " " + ToUpper("holding") + " ";
    LookupInsensitive(RegTypeValues, 0, " ", "holding", " ");
    RegTypeRoundTrip(HOLDING, "holding");
  }

  // ---------------------------------------------------------------------------
  // JSON codec
  // ---------------------------------------------------------------------------

  /** json.Marshal of a string with nothing to escape: the text in double quotes. */
  function Quote(s: string): string {
    "\"" + s + "\""
  }

  /** MarshalJSON of the three enums: the quoted name ("" for an undeclared value). */
  function MarshalMode(m: Mode): (j: string)
    ensures |j| >= 2 && j[0] == '"' && j[|j| - 1] == '"' && j[1..|j| - 1] == ModeString(m)
  {
    Quote(ModeString(m))
  }

  function MarshalRegType(t: RegType): (j: string)
    ensures |j| >= 2 && j[0] == '"' && j[|j| - 1] == '"' && j[1..|j| - 1] == RegTypeString(t)
  {
    Quote(RegTypeString(t))
  }

  function MarshalRegMode(m: RegMode): (j: string)
    ensures |j| >= 2 && j[0] == '"' && j[|j| - 1] == '"' && j[1..|j| - 1] == RegModeString(m)
  {
    Quote(RegModeString(m))
  }

  /**
   * UnmarshalJSON of an enum, given the already decoded JSON string: the
   * parsed value, or the parser's error for an unknown name.
   */
  function UnmarshalEnum<T>(p: Parsed<T>, input: string): (r: Result<T>)
    ensures r.Ok? <==> p.ok
    ensures r.Ok? ==> r.value == p.value
    ensures r.Err? ==> r.error == UnknownName(Normalize(input))
  {
    if p.ok then Ok(p.value) else Err(UnknownName(Normalize(input)))
  }

  /** The three UnmarshalJSON methods: a decoded value is the one the normalised input names. */
  function UnmarshalMode(input: string): (r: Result<Mode>)
    ensures r.Ok? ==> ModeString(r.value) == Normalize(input)
    ensures r.Err? ==> r.error == UnknownName(Normalize(input))
  {
    ModeCodec();
    NameLookup(ModeNames, ModeValues, 0, input);
    UnmarshalEnum(ParseMode(input), input)
  }

  function UnmarshalRegType(input: string): (r: Result<RegType>)
    ensures r.Ok? ==> RegTypeString(r.value) == Normalize(input)
    ensures r.Err? ==> r.error == UnknownName(Normalize(input))
  {
    RegTypeCodec();
    NameLookup(RegTypeNames, RegTypeValues, 0, input);
    UnmarshalEnum(ParseRegType(input), input)
  }

  function UnmarshalRegMode(input: string): (r: Result<RegMode>)
    ensures r.Ok? ==> RegModeString(r.value) == Normalize(input)
    ensures r.Err? ==> r.error == UnknownName(Normalize(input))
  {
    RegModeCodec();
    NameLookup(RegModeNames, RegModeValues, 0, input);
    UnmarshalEnum(ParseRegMode(input), input)
  }

  /** Marshalling then unmarshalling a declared mode gives it back. */
  lemma JsonModeRoundTrip(m: Mode)
    ensures 1 <= m <= 3 ==> UnmarshalMode(ModeString(m)) == Ok(m)
  {
    ModeRoundTrip(m, "");
  }

  /** Marshalling then unmarshalling a declared register type gives it back. */
  lemma JsonRegTypeRoundTrip(t: RegType)
    ensures 1 <= t <= 4 ==> UnmarshalRegType(RegTypeString(t)) == Ok(t)
  {
    RegTypeRoundTrip(t, "");
  }

  /** Marshalling then unmarshalling a declared register mode gives it back. */
  lemma JsonRegModeRoundTrip(m: RegMode)
    ensures 1 <= m <= 3 ==> UnmarshalRegMode(RegModeString(m)) == Ok(m)
  {
    RegModeRoundTrip(m, "");
  }

  /** The serialised forms of RTU, COIL and RW. */
  lemma JsonExamples()
    ensures MarshalMode(RTU) == "\"rtu\""
    ensures MarshalRegType(COIL) == "\"coil\""
    ensures MarshalRegMode(RW) == "\"rw\""
  {
  }

  /** "rtu" reads back as RTU. */
  lemma JsonReadRtu()
    ensures UnmarshalMode("rtu") == Ok(RTU)
  {
    NormalizeLowerWord("rtu");
  }
}
