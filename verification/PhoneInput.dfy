/** Phone numbers: country and carrier detection, validation, and the two printed forms that
    validation returns. */
module PhoneInput {
  import opened Prelude

  datatype Country = CM | SN | CI | NG | KE | GH

  /** Declaration order, which detection follows. */
  const COUNTRIES := [CM, SN, CI, NG, KE, GH]

  function DialDigits(c: Country): string {
    match c
    case CM => "237"
    case SN => "221"
    case CI => "225"
    case NG => "234"
    case KE => "254"
    case GH => "233"
  }

  function DialCode(c: Country): string { "+" + DialDigits(c) }

  function NationalLength(c: Country): nat {
    match c
    case CM => 9
    case SN => 9
    case CI => 10
    case NG => 10
    case KE => 9
    case GH => 9
  }

  /** The lengths of the groups in which national digits are printed. */
  function Groups(c: Country): seq<nat> {
    match c
    case CM => [3, 2, 2, 2]
    case SN => [2, 3, 2, 2]
    case CI => [2, 2, 2, 2, 2]
    case NG => [3, 3, 4]
    case KE => [3, 3, 3]
    case GH => [2, 3, 4]
  }

  // ----- Carriers -----

  datatype Carrier =
    | Mtn | Orange | Mpesa | Airtel | Nexttel | Camtel | Free
    | Expresso | Moov | Glo | NineMobile | Telecel | AirtelTigo | Telkom

  datatype Entry = Entry(prefix: string, carrier: Carrier)

  function Entries(carrier: Carrier, prefixes: seq<string>): (es: seq<Entry>)
    ensures |es| == |prefixes|
    ensures forall i :: 0 <= i < |es| ==> es[i] == Entry(prefixes[i], carrier)
  {
    if prefixes == [] then [] else [Entry(prefixes[0], carrier)] + Entries(carrier, prefixes[1..])
  }

  const CM_MTN := ["67", "68", "650", "651", "652", "653", "654"]
  const CM_ORANGE := ["69", "655", "656", "657", "658", "659"]
  const CM_NEXTTEL := ["66"]
  const CM_CAMTEL := ["62", "242", "243"]
  const SN_ORANGE := ["77", "78"]
  const SN_FREE := ["76"]
  const SN_EXPRESSO := ["70"]
  const SN_PROMOBILE := ["75"]
  const CI_ORANGE := ["07", "7"]
  const CI_MTN := ["05", "5"]
  const CI_MOOV := ["01", "1"]
  const NG_MTN := ["803", "806", "813", "816", "810", "814", "903", "906", "703", "706", "704", "707", "7025",
    "7026"]
  const NG_AIRTEL := ["802", "808", "812", "701", "708", "902", "901", "907", "912"]
  const NG_GLO := ["805", "807", "815", "811", "705", "905", "915"]
  const NG_NINE_MOBILE := ["809", "817", "818", "909", "908"]
  const KE_MPESA := ["70", "71", "72", "740", "741", "742", "743", "745", "746", "747", "748", "757", "758",
    "759", "768", "769", "79", "110", "111", "112", "113", "114", "115"]
  const KE_AIRTEL := ["73", "750", "751", "752", "753", "754", "755", "756", "78", "100", "101", "102"]
  const KE_TELKOM := ["77"]
  const GH_MTN := ["24", "54", "55", "59", "25"]
  const GH_TELECEL := ["20", "50"]
  const GH_AIRTEL_TIGO := ["27", "57", "26", "56"]

  function PrefixTable(c: Country): seq<Entry> {
    match c
    case CM =>
      Entries(Mtn, CM_MTN) +
      Entries(Orange, CM_ORANGE) +
      Entries(Nexttel, CM_NEXTTEL) + Entries(Camtel, CM_CAMTEL)
    case SN =>
      Entries(Orange, SN_ORANGE) + Entries(Free, SN_FREE) + Entries(Expresso, SN_EXPRESSO) + Entries(Free, SN_PROMOBILE)
    case CI =>
      Entries(Orange, CI_ORANGE) + Entries(Mtn, CI_MTN) + Entries(Moov, CI_MOOV)
    case NG =>
      Entries(Mtn, NG_MTN) +
      Entries(Airtel, NG_AIRTEL) +
      Entries(Glo, NG_GLO) +
      Entries(NineMobile, NG_NINE_MOBILE)
    case KE =>
      Entries(Mpesa, KE_MPESA) +
      Entries(Airtel, KE_AIRTEL) +
      Entries(Telkom, KE_TELKOM)
    case GH =>
      Entries(Mtn, GH_MTN) + Entries(Telecel, GH_TELECEL) +
      Entries(AirtelTigo, GH_AIRTEL_TIGO)
  }

  predicate StartsWith(s: string, prefix: string) { prefix <= s }

  function Insert(e: Entry, es: seq<Entry>): seq<Entry> {
    if es == [] || |e.prefix| >= |es[0].prefix| then [e] + es else [es[0]] + Insert(e, es[1..])
  }

  /** A stable sort by descending prefix length. */
  function LongestFirst(es: seq<Entry>): seq<Entry> {
    if es == [] then [] else Insert(es[0], LongestFirst(es[1..]))
  }

  function FirstMatch(es: seq<Entry>, digits: string): Option<Entry> {
    if es == [] then None
    else if StartsWith(digits, es[0].prefix) then Some(es[0])
    else FirstMatch(es[1..], digits)
  }

  /** `detectCarrier`, for the prefix table of a country. */
  function DetectCarrier(table: seq<Entry>, digits: string): Option<Carrier> {
    var m := FirstMatch(LongestFirst(table), digits);
    if m.Some? then Some(m.value.carrier) else None
  }

  lemma {:induction false} InsertMembers(e: Entry, es: seq<Entry>)
    ensures forall x :: x in Insert(e, es) <==> x == e || x in es
  {
    if es != [] && |e.prefix| < |es[0].prefix| {
      InsertMembers(e, es[1..]);
      assert es == [es[0]] + es[1..];
    }
  }

  lemma {:induction false} LongestFirstMembers(es: seq<Entry>)
    ensures forall x :: x in LongestFirst(es) <==> x in es
  {
    if es == [] {
    } else {
      LongestFirstMembers(es[1..]);
      InsertMembers(es[0], LongestFirst(es[1..]));
      assert es == [es[0]] + es[1..];
    }
  }

  predicate Descending(es: seq<Entry>) {
    forall i, j :: 0 <= i < j < |es| ==> |es[i].prefix| >= |es[j].prefix|
  }

  lemma {:induction false} InsertDescending(e: Entry, es: seq<Entry>)
    requires Descending(es)
    ensures Descending(Insert(e, es))
  {
    if es != [] && |e.prefix| < |es[0].prefix| {
      InsertDescending(e, es[1..]);
      InsertMembers(e, es[1..]);
      var rest := Insert(e, es[1..]);
      forall j | 0 <= j < |rest|
        ensures |es[0].prefix| >= |rest[j].prefix|
      {
        assert rest[j] in rest;
      }
    }
  }

  lemma {:induction false} LongestFirstDescending(es: seq<Entry>)
    ensures Descending(LongestFirst(es))
  {
    if es == [] {
    } else {
      LongestFirstDescending(es[1..]);
      InsertDescending(es[0], LongestFirst(es[1..]));
    }
  }

  lemma {:induction false} FirstMatchIsLongest(es: seq<Entry>, digits: string)
    requires Descending(es)
    ensures var m := FirstMatch(es, digits);
            && (m.None? <==> forall e :: e in es ==> !StartsWith(digits, e.prefix))
            && (m.Some? ==> m.value in es && StartsWith(digits, m.value.prefix) &&
                            forall e :: e in es && StartsWith(digits, e.prefix) ==> |e.prefix| <= |m.value.prefix|)
  {
    if es == [] {
    } else {
      FirstMatchIsLongest(es[1..], digits);
      assert es == [es[0]] + es[1..];
      forall e | e in es
        ensures |e.prefix| <= |es[0].prefix|
      {
        var i :| 0 <= i < |es| && es[i] == e;
      }
    }
  }

  /** The carrier is that of the longest prefix in the table, if any prefix matches. */
  lemma LongestPrefixWins(table: seq<Entry>, digits: string)
    ensures DetectCarrier(table, digits).None? <==> forall e :: e in table ==> !StartsWith(digits, e.prefix)
    ensures DetectCarrier(table, digits).Some? ==>
              exists e :: e in table && StartsWith(digits, e.prefix) &&
                          e.carrier == DetectCarrier(table, digits).value &&
                          forall f :: f in table && StartsWith(digits, f.prefix) ==> |f.prefix| <= |e.prefix|
  {
    LongestFirstMembers(table);
    LongestFirstDescending(table);
    FirstMatchIsLongest(LongestFirst(table), digits);
    var m := FirstMatch(LongestFirst(table), digits);
    if m.Some? {
      assert m.value in table;
    }
  }

  // ----- Printing -----

  /** Cuts digits into groups; the last group may be short, and what does not fit is dropped. */
  function Parts(groups: seq<nat>, digits: string): seq<string> {
    if groups == [] || digits == "" then []
    else
      var k := MinOf(groups[0], |digits|);
      [digits[..k]] + Parts(groups[1..], digits[k..])
  }

  function Format(c: Country, digits: string): string { Join(Parts(Groups(c), digits)) }

  /** The program's form: one more part is pushed while digits are left. */
  method PushParts(groups: seq<nat>, digits: string) returns (parts: seq<string>)
    ensures parts == Parts(groups, digits)
  {
    parts := [];
    var start, i := 0, 0;
    while i < |groups| && start < |digits|
      invariant 0 <= i <= |groups| && 0 <= start <= |digits|
      invariant parts + Parts(groups[i..], digits[start..]) == Parts(groups, digits)
    {
      var stop := start + MinOf(groups[i], |digits| - start);
      assert groups[i..][0] == groups[i] && groups[i..][1..] == groups[i + 1..];
      assert digits[start..][..stop - start] == digits[start..stop];
      assert digits[start..][stop - start..] == digits[stop..];
      parts := parts + [digits[start..stop]];
      start, i := stop, i + 1;
    }
    assert Parts(groups[i..], digits[start..]) == [];
  }

  method FormatNational(c: Country, digits: string) returns (r: string)
    ensures r == Format(c, digits)
  {
    var parts := PushParts(Groups(c), digits);
    r := Join(parts);
  }

  // ----- Validation -----

  function TrimStart(s: string): string { if s != "" && IsSpace(s[0]) then TrimStart(s[1..]) else s }

  function TrimEnd(s: string): string { if s != "" && IsSpace(s[|s| - 1]) then TrimEnd(s[..|s| - 1]) else s }

  function Trim(s: string): string { TrimEnd(TrimStart(s)) }

  /** Removes everything but digits and, with `plus`, plus signs. */
  function Keep(s: string, plus: bool): string {
    if s == "" then ""
    else if IsDigit(s[0]) || (plus && s[0] == '+') then [s[0]] + Keep(s[1..], plus)
    else Keep(s[1..], plus)
  }

  function FirstCountry(cs: seq<Country>, clean: string): Option<Country> {
    if cs == [] then None
    else if StartsWith(clean, DialCode(cs[0])) || StartsWith(clean, DialDigits(cs[0])) then Some(cs[0])
    else FirstCountry(cs[1..], clean)
  }

  function DetectCountry(input: string): Option<Country> { FirstCountry(COUNTRIES, Keep(Trim(input), true)) }

  datatype Problem = UnknownCountry | InvalidPrefix | TooLong | Incomplete

  datatype Validation = Validation(
    isValid: bool, isPrefixValid: bool, isLengthValid: bool, formattedNumber: string, e164Number: string,
    country: Option<Country>, carrier: Option<Carrier>, problem: Option<Problem>)

  /** Drops the trunk zero of domestic formats, except in Ivory Coast. */
  function National(c: Country, digits: string): string {
    if c != CI && StartsWith(digits, "0") then digits[1..] else digits
  }

  type Tables = Country -> seq<Entry>

  /** The outcome for a known country. */
  function ValidateNational(tables: Tables, c: Country, national: string): Validation {
    var carrier := DetectCarrier(tables(c), national);
    var isPrefixValid := |national| == 0 || carrier.Some?;
    var isLengthValid := |national| == NationalLength(c);
    var isValid := isPrefixValid && isLengthValid && carrier.Some?;
    var problem :=
      if |national| > 0 && carrier.None? then Some(InvalidPrefix)
      else if |national| > NationalLength(c) then Some(TooLong)
      else if |national| > 0 && |national| < NationalLength(c) then Some(Incomplete)
      else None;
    Validation(isValid, isPrefixValid, isLengthValid, Trim(DialCode(c) + " " + Format(c, national)),
               DialCode(c) + national, Some(c), carrier, if isValid then None else problem)
  }

  function Validate(tables: Tables, input: string, selected: Option<Country>): Validation {
    var raw := Trim(input);
    if raw == "" then Validation(false, true, true, "", "", selected, None, None)
    else
      var digits := Keep(raw, false);
      var detected := if raw[0] == '+' then DetectCountry(raw) else None;
      var country := if detected.Some? then detected else selected;
      if country.None? then
        Validation(false, false, false, raw, if raw[0] == '+' then raw else "+" + digits, None, None,
                   Some(UnknownCountry))
      else
        var local := if detected.Some? && StartsWith(digits, DialDigits(detected.value))
                     then digits[|DialDigits(detected.value)|..] else digits;
        ValidateNational(tables, country.value, National(country.value, local))
  }

  // ----- Parsing what was printed -----

  predicate AllDigits(s: string) { forall i :: 0 <= i < |s| ==> IsDigit(s[i]) }

  lemma {:induction false} KeepConcat(a: string, b: string, plus: bool)
    ensures Keep(a + b, plus) == Keep(a, plus) + Keep(b, plus)
  {
    if a == "" {
      assert a + b == b;
    } else {
      assert (a + b)[0] == a[0] && (a + b)[1..] == a[1..] + b;
      KeepConcat(a[1..], b, plus);
    }
  }

  lemma {:induction false} KeepOfDigits(s: string, plus: bool)
    requires AllDigits(s)
    ensures Keep(s, plus) == s
  {
    if s != "" {
      KeepOfDigits(s[1..], plus);
      assert s == [s[0]] + s[1..];
    }
  }

  lemma {:induction false} KeepIsDigits(s: string)
    ensures AllDigits(Keep(s, false))
  {
    if s != "" {
      KeepIsDigits(s[1..]);
    }
  }

  function Sum(groups: seq<nat>): nat { if groups == [] then 0 else groups[0] + Sum(groups[1..]) }

  lemma JoinCons(head: string, rest: seq<string>)
    requires rest != []
    ensures Join([head] + rest) == head + " " + Join(rest)
  {
  }

  lemma KeepAcrossSpace(head: string, t: string, plus: bool)
    requires AllDigits(head)
    ensures Keep(head + " " + t, plus) == head + Keep(t, plus)
  {
    KeepOfDigits(head, plus);
    KeepConcat(head, " ", plus);
    KeepConcat(head + " ", t, plus);
    assert Keep(" ", plus) == "";
  }

  predicate EndsWithDigit(s: string) { s != "" && IsDigit(s[|s| - 1]) }

  /** Printing loses no digit, and ends with one. */
  lemma {:induction false} PrintedDigits(groups: seq<nat>, d: string, plus: bool)
    requires AllDigits(d) && d != "" && |d| <= Sum(groups) && forall i :: 0 <= i < |groups| ==> groups[i] > 0
    ensures Parts(groups, d) != []
    ensures Keep(Join(Parts(groups, d)), plus) == d
    ensures EndsWithDigit(Join(Parts(groups, d)))
    decreases |groups|
  {
    var k := MinOf(groups[0], |d|);
    var head, tail := d[..k], d[k..];
    var rest := Parts(groups[1..], tail);
    assert d == head + tail;
    if tail == "" {
      KeepOfDigits(d, plus);
      assert Parts(groups, d) == [head] && head == d;
    } else {
      PrintedDigits(groups[1..], tail, plus);
      JoinCons(head, rest);
      KeepAcrossSpace(head, Join(rest), plus);
      assert Parts(groups, d) == [head] + rest;
    }
  }

  lemma SumOfTwo(a: nat, b: nat, rest: seq<nat>)
    ensures Sum([a, b] + rest) == a + b + Sum(rest)
  {
  }

  /** The groups of every country add up to its national length. */
  lemma GroupsFill(c: Country)
    ensures Sum(Groups(c)) == NationalLength(c)
  {
    var g := Groups(c);
    assert g == [g[0], g[1]] + g[2..];
    SumOfTwo(g[0], g[1], g[2..]);
    if |g| == 3 {
      assert g[2..] == [g[2]] && [g[2]][1..] == [];
    } else {
      assert g[2..] == [g[2], g[3]] + g[4..];
      SumOfTwo(g[2], g[3], g[4..]);
      if |g| == 5 {
        assert g[4..] == [g[4]] && [g[4]][1..] == [];
      }
    }
  }

  lemma FormatKeepsDigits(c: Country, d: string, plus: bool)
    requires AllDigits(d) && |d| == NationalLength(c)
    ensures Keep(Format(c, d), plus) == d && EndsWithDigit(Format(c, d))
  {
    var g := Groups(c);
    assert Sum(g) == NationalLength(c) by {
      GroupsFill(c);
    }
    PrintedDigits(g, d, plus);
  }

  lemma TrimIsIdentity(s: string)
    requires s != "" && !IsSpace(s[0]) && EndsWithDigit(s)
    ensures Trim(s) == s
  {
  }

  lemma OtherCode(c: Country, d: Country, clean: string)
    requires c != d && StartsWith(clean, DialCode(c))
    ensures !StartsWith(clean, DialCode(d)) && !StartsWith(clean, DialDigits(d))
  {
    var x, y := DialDigits(c), DialDigits(d);
    assert clean[0] == '+' && clean[2] == x[1] && clean[3] == x[2];
    assert x[1] != y[1] || x[2] != y[2];
    assert DialCode(d)[2] == y[1] && DialCode(d)[3] == y[2];
  }

  /** No country's calling code is another's, so the code in front decides. */
  lemma {:induction false} CodeDecides(cs: seq<Country>, c: Country, clean: string)
    requires StartsWith(clean, DialCode(c)) && c in cs
    ensures FirstCountry(cs, clean) == Some(c)
  {
    if cs[0] != c {
      OtherCode(c, cs[0], clean);
      CodeDecides(cs[1..], c, clean);
    }
  }

  /** A text that shows code and digits of a number is validated as that number. */
  lemma ValidateShown(tables: Tables, c: Country, n: string, text: string, selected: Option<Country>)
    requires National(c, n) == n
    requires text != "" && text[0] == '+' && EndsWithDigit(text)
    requires Keep(text, false) == DialDigits(c) + n && StartsWith(Keep(text, true), DialCode(c))
    ensures Validate(tables, text, selected) == ValidateNational(tables, c, n)
  {
    TrimIsIdentity(text);
    CodeDecides(COUNTRIES, c, Keep(text, true));
    assert DetectCountry(text) == Some(c);
    var digits := DialDigits(c) + n;
    assert StartsWith(digits, DialDigits(c)) && digits[|DialDigits(c)|..] == n;
  }

  lemma PlusCode(c: Country, rest: string, plus: bool)
    ensures Keep(DialCode(c) + rest, plus) == (if plus then DialCode(c) else DialDigits(c)) + Keep(rest, plus)
  {
    var d := DialDigits(c);
    assert AllDigits(d);
    KeepOfDigits(d, plus);
    KeepConcat("+", d, plus);
    KeepConcat(DialCode(c), rest, plus);
    assert Keep("+", plus) == if plus then "+" else "";
  }

  /** The E.164 form and the printed form both show the number. */
  lemma FormsShowNumber(c: Country, n: string, plus: bool)
    requires AllDigits(n) && |n| == NationalLength(c)
    ensures Keep(DialCode(c) + n, plus) == (if plus then DialCode(c) else DialDigits(c)) + n
    ensures Keep(DialCode(c) + " " + Format(c, n), plus) == (if plus then DialCode(c) else DialDigits(c)) + n
    ensures EndsWithDigit(DialCode(c) + n) && EndsWithDigit(DialCode(c) + " " + Format(c, n))
  {
    var f := Format(c, n);
    PlusCode(c, n, plus);
    KeepOfDigits(n, plus);
    FormatKeepsDigits(c, n, plus);
    PlusCode(c, " " + f, plus);
    KeepConcat(" ", f, plus);
    assert DialCode(c) + " " + f == DialCode(c) + (" " + f);
  }

  /** No prefix starts with the trunk zero. */
  ghost predicate NoTrunkZero(es: seq<Entry>) {
    forall e :: e in es ==> e.prefix != "" && e.prefix[0] != '0'
  }

  /** Ivory Coast, where the zero belongs to the number, is the exception. */
  ghost predicate TrunkFree(tables: Tables) {
    forall c :: c != CI ==> NoTrunkZero(tables(c))
  }

  lemma CarrierMeansNational(tables: Tables, c: Country, n: string)
    requires TrunkFree(tables) && DetectCarrier(tables(c), n).Some?
    ensures National(c, n) == n
  {
    LongestPrefixWins(tables(c), n);
  }

  lemma ValidNumber(tables: Tables, input: string, selected: Option<Country>) returns (c: Country, n: string)
    requires TrunkFree(tables) && Validate(tables, input, selected).isValid
    ensures Validate(tables, input, selected) == ValidateNational(tables, c, n)
    ensures AllDigits(n) && |n| == NationalLength(c) && National(c, n) == n
  {
    var raw := Trim(input);
    var digits := Keep(raw, false);
    KeepIsDigits(raw);
    var detected := if raw[0] == '+' then DetectCountry(raw) else None;
    c := if detected.Some? then detected.value else selected.value;
    var local := if detected.Some? && StartsWith(digits, DialDigits(c)) then digits[|DialDigits(c)|..] else digits;
    n := National(c, local);
    assert AllDigits(digits) && AllDigits(local) && AllDigits(n);
    assert Validate(tables, input, selected) == ValidateNational(tables, c, n);
    CarrierMeansNational(tables, c, n);
  }

  /** A number is valid exactly if it has the national length and a known prefix; any other
      number with digits comes with a problem. */
  lemma ValidExactly(tables: Tables, c: Country, n: string)
    ensures var r := ValidateNational(tables, c, n);
            && (r.isValid <==> |n| == NationalLength(c) && exists e :: e in tables(c) && StartsWith(n, e.prefix))
            && (r.isPrefixValid <==> n == "" || exists e :: e in tables(c) && StartsWith(n, e.prefix))
            && (r.isLengthValid <==> |n| == NationalLength(c))
            && r.country == Some(c) && r.e164Number == DialCode(c) + n
            && (r.problem.Some? <==> !r.isValid && n != "")
            && (r.problem == Some(TooLong) ==> |n| > NationalLength(c) && r.carrier.Some?)
            && (r.problem == Some(Incomplete) ==> |n| < NationalLength(c) && r.carrier.Some?)
            && (r.problem == Some(InvalidPrefix) <==>
                  n != "" && forall e :: e in tables(c) ==> !StartsWith(n, e.prefix))
  {
    LongestPrefixWins(tables(c), n);
  }

  /** Without a country: blank input is neither valid nor wrong and keeps the selection; any other
      is reported as it was typed, with its digits behind a plus sign. */
  lemma WithoutCountry(tables: Tables, input: string, selected: Option<Country>)
    ensures var raw, r := Trim(input), Validate(tables, input, selected);
            && (raw == "" ==>
                  !r.isValid && r.isPrefixValid && r.isLengthValid && r.problem.None? && r.carrier.None? &&
                  r.country == selected && r.formattedNumber == r.e164Number == "")
            && (raw != "" && selected.None? && (raw[0] != '+' || DetectCountry(raw).None?) ==>
                  !r.isValid && !r.isPrefixValid && !r.isLengthValid && r.country.None? && r.carrier.None? &&
                  r.problem == Some(UnknownCountry) && r.formattedNumber == raw &&
                  StartsWith(r.e164Number, "+") && Keep(r.e164Number, false) == Keep(raw, false))
  {
    var raw := Trim(input);
    if raw != "" && raw[0] != '+' {
      var digits := Keep(raw, false);
      KeepIsDigits(raw);
      KeepConcat("+", digits, false);
      KeepOfDigits(digits, false);
    }
  }

  lemma DigitsAreTrimmed(d: string)
    requires AllDigits(d)
    ensures Trim(d) == d
  {
  }

  lemma DigitsUnderCountry(tables: Tables, c: Country, d: string)
    requires AllDigits(d) && d != ""
    ensures Validate(tables, d, Some(c)) == ValidateNational(tables, c, National(c, d))
  {
    DigitsAreTrimmed(d);
    KeepOfDigits(d, false);
    assert IsDigit(d[0]);
  }

  /** Digits under a selected country: the trunk zero of the domestic form is dropped, except in
      Ivory Coast, where numbers start with zero. */
  lemma DomesticForm(tables: Tables, c: Country, d: string)
    requires AllDigits(d) && d != ""
    ensures Validate(tables, "0" + d, Some(c)) == ValidateNational(tables, c, if c == CI then "0" + d else d)
    ensures d[0] != '0' || c == CI ==> Validate(tables, d, Some(c)) == ValidateNational(tables, c, d)
  {
    DigitsUnderCountry(tables, c, "0" + d);
    DigitsUnderCountry(tables, c, d);
    assert ("0" + d)[1..] == d;
  }

  /** Whenever an input validates, its printed form and its E.164 form validate too, under any
      selected country, with the very same result. */
  lemma RoundTrip(tables: Tables, input: string, selected: Option<Country>, reselected: Option<Country>)
    requires TrunkFree(tables) && Validate(tables, input, selected).isValid
    ensures var r := Validate(tables, input, selected);
            Validate(tables, r.formattedNumber, reselected) == r && Validate(tables, r.e164Number, reselected) == r
  {
    var c, n := ValidNumber(tables, input, selected);
    FormsShowNumber(c, n, true);
    FormsShowNumber(c, n, false);
    var printed := DialCode(c) + " " + Format(c, n);
    TrimIsIdentity(printed);
    ValidateShown(tables, c, n, printed, reselected);
    ValidateShown(tables, c, n, DialCode(c) + n, reselected);
  }

  predicate NoneStartsWithZero(prefixes: seq<string>) {
    forall i :: 0 <= i < |prefixes| ==> prefixes[i] != "" && prefixes[i][0] != '0'
  }

  lemma EntriesNoTrunkZero(carrier: Carrier, prefixes: seq<string>)
    requires NoneStartsWithZero(prefixes)
    ensures NoTrunkZero(Entries(carrier, prefixes))
  {
  }

  lemma NoTrunkZeroConcat(a: seq<Entry>, b: seq<Entry>)
    requires NoTrunkZero(a) && NoTrunkZero(b)
    ensures NoTrunkZero(a + b)
  {
  }

  lemma NigerianPrefixes()
    ensures NoneStartsWithZero(NG_MTN)
    ensures NoneStartsWithZero(NG_AIRTEL)
    ensures NoneStartsWithZero(NG_GLO)
    ensures NoneStartsWithZero(NG_NINE_MOBILE)
  {
  }

  lemma KenyanPrefixes()
    ensures NoneStartsWithZero(KE_MPESA)
    ensures NoneStartsWithZero(KE_AIRTEL)
    ensures NoneStartsWithZero(KE_TELKOM)
  {
  }

  lemma OtherPrefixes()
    ensures NoneStartsWithZero(CM_MTN)
    ensures NoneStartsWithZero(CM_ORANGE)
    ensures NoneStartsWithZero(CM_NEXTTEL)
    ensures NoneStartsWithZero(CM_CAMTEL)
    ensures NoneStartsWithZero(SN_ORANGE)
    ensures NoneStartsWithZero(SN_FREE)
    ensures NoneStartsWithZero(SN_EXPRESSO)
    ensures NoneStartsWithZero(SN_PROMOBILE)
    ensures NoneStartsWithZero(GH_MTN)
    ensures NoneStartsWithZero(GH_TELECEL)
    ensures NoneStartsWithZero(GH_AIRTEL_TIGO)
  {
  }

  lemma FourParts(w: Carrier, ws: seq<string>, x: Carrier, xs: seq<string>, y: Carrier, ys: seq<string>,
                  z: Carrier, zs: seq<string>)
    requires NoneStartsWithZero(ws) && NoneStartsWithZero(xs) && NoneStartsWithZero(ys) && NoneStartsWithZero(zs)
    ensures NoTrunkZero(Entries(w, ws) + Entries(x, xs))
    ensures NoTrunkZero(Entries(w, ws) + Entries(x, xs) + Entries(y, ys))
    ensures NoTrunkZero(Entries(w, ws) + Entries(x, xs) + Entries(y, ys) + Entries(z, zs))
  {
    EntriesNoTrunkZero(w, ws);
    EntriesNoTrunkZero(x, xs);
    EntriesNoTrunkZero(y, ys);
    EntriesNoTrunkZero(z, zs);
    NoTrunkZeroConcat(Entries(w, ws), Entries(x, xs));
    NoTrunkZeroConcat(Entries(w, ws) + Entries(x, xs), Entries(y, ys));
    NoTrunkZeroConcat(Entries(w, ws) + Entries(x, xs) + Entries(y, ys), Entries(z, zs));
  }

  lemma TableNoTrunkZero(c: Country)
    requires c != CI
    ensures NoTrunkZero(PrefixTable(c))
  {
    NigerianPrefixes();
    KenyanPrefixes();
    OtherPrefixes();
    match c
    case CM => FourParts(Mtn, CM_MTN, Orange, CM_ORANGE, Nexttel, CM_NEXTTEL, Camtel, CM_CAMTEL);
    case SN => FourParts(Orange, SN_ORANGE, Free, SN_FREE, Expresso, SN_EXPRESSO, Free, SN_PROMOBILE);
    case NG => FourParts(Mtn, NG_MTN, Airtel, NG_AIRTEL, Glo, NG_GLO, NineMobile, NG_NINE_MOBILE);
    case KE => FourParts(Mpesa, KE_MPESA, Airtel, KE_AIRTEL, Telkom, KE_TELKOM, Telkom, []);
    case GH => FourParts(Mtn, GH_MTN, Telecel, GH_TELECEL, AirtelTigo, GH_AIRTEL_TIGO, AirtelTigo, []);
  }

  /** The program's own tables qualify. */
  lemma PrefixTableIsTrunkFree()
    ensures TrunkFree(PrefixTable)
  {
    forall c | c != CI
      ensures NoTrunkZero(PrefixTable(c))
    {
      TableNoTrunkZero(c);
    }
  }

  /** The round trip for the program's own tables. */
  lemma OwnRoundTrip(input: string, selected: Option<Country>, reselected: Option<Country>)
    requires Validate(PrefixTable, input, selected).isValid
    ensures var r := Validate(PrefixTable, input, selected);
            && Validate(PrefixTable, r.formattedNumber, reselected) == r
            && Validate(PrefixTable, r.e164Number, reselected) == r
  {
    PrefixTableIsTrunkFree();
    RoundTrip(PrefixTable, input, selected, reselected);
  }

  // ----- The program's loops -----

  method FindCountry(input: string) returns (r: Option<Country>)
    ensures r == DetectCountry(input)
  {
    var clean := Keep(Trim(input), true);
    for i := 0 to |COUNTRIES|
      invariant FirstCountry(COUNTRIES[i..], clean) == FirstCountry(COUNTRIES, clean)
    {
      var country := COUNTRIES[i];
      assert COUNTRIES[i..][0] == country && COUNTRIES[i..][1..] == COUNTRIES[i + 1..];
      if StartsWith(clean, DialCode(country)) || StartsWith(clean, DialDigits(country)) {
        return Some(country);
      }
    }
    r := None;
  }

  method FindCarrier(table: seq<Entry>, digits: string) returns (r: Option<Carrier>)
    ensures r == DetectCarrier(table, digits)
  {
    var sorted := LongestFirst(table);
    for i := 0 to |sorted|
      invariant FirstMatch(sorted[i..], digits) == FirstMatch(sorted, digits)
    {
      assert sorted[i..][0] == sorted[i] && sorted[i..][1..] == sorted[i + 1..];
      if StartsWith(digits, sorted[i].prefix) {
        return Some(sorted[i].carrier);
      }
    }
    r := None;
  }

  method ValidatePhoneNumber(tables: Tables, input: string, selected: Option<Country>) returns (r: Validation)
    ensures r == Validate(tables, input, selected)
  {
    var raw := Trim(input);
    if raw == "" {
      return Validation(false, true, true, "", "", selected, None, None);
    }
    var country := selected;
    var digits := Keep(raw, false);
    if raw[0] == '+' {
      var detected := FindCountry(raw);
      if detected.Some? {
        country := detected;
        if StartsWith(digits, DialDigits(detected.value)) {
          digits := digits[|DialDigits(detected.value)|..];
        }
      }
    }
    if country.None? {
      return Validation(false, false, false, raw, if raw[0] == '+' then raw else "+" + digits, None, None,
                        Some(UnknownCountry));
    }
    var c, national := country.value, digits;
    if c != CI && StartsWith(national, "0") {
      national := national[1..];
    }
    var carrier := FindCarrier(tables(c), national);
    var formatted := FormatNational(c, national);
    var isPrefixValid := |national| == 0 || carrier.Some?;
    var isLengthValid := |national| == NationalLength(c);
    var isValid := isPrefixValid && isLengthValid && carrier.Some?;
    var problem: Option<Problem> := None;
    if |national| > 0 && carrier.None? {
      problem := Some(InvalidPrefix);
    } else if |national| > NationalLength(c) {
      problem := Some(TooLong);
    } else if |national| > 0 && |national| < NationalLength(c) {
      problem := Some(Incomplete);
    }
    r := Validation(isValid, isPrefixValid, isLengthValid, Trim(DialCode(c) + " " + formatted), DialCode(c) + national,
                    Some(c), carrier, if isValid then None else problem);
  }
}
