/** JWT key rotation: a primary signing key, secondary keys inside their grace window, and
    lazy removal of the others. Times are epoch milliseconds. */
module JwtKeys {
  import opened Prelude

  datatype KeyEntry = KeyEntry(version: string, key: string, createdAt: int, rotatedOutAt: int) {
    /** 0 means that the entry never left primary duty. */
    function DeprecationTime(): int { if rotatedOutAt != 0 then rotatedOutAt else createdAt }

    predicate Expired(now: int, grace: int) { now - DeprecationTime() >= grace }
  }

  datatype KeyId = KeyId(key: string, kid: string)

  datatype Missing = ActiveKeyNotFound | NoVerificationKeys

  /** The store: entries in insertion order, and the version of the primary. */
  datatype Keys = Keys(entries: seq<KeyEntry>, active: string) {
    predicate HasActive() { exists e :: e in entries && e.version == active }
  }

  predicate DistinctVersions(es: seq<KeyEntry>) {
    forall i, j :: 0 <= i < j < |es| ==> es[i].version != es[j].version
  }

  /** The entries that cleanup at `now` leaves: the primary and unexpired secondaries. */
  function Kept(es: seq<KeyEntry>, active: string, now: int, grace: int): seq<KeyEntry> {
    if es == [] then []
    else
      var rest := Kept(es[1..], active, now, grace);
      if es[0].version == active || !es[0].Expired(now, grace) then [es[0]] + rest else rest
  }

  lemma {:induction false} KeptMembers(es: seq<KeyEntry>, active: string, now: int, grace: int)
    ensures forall e :: e in Kept(es, active, now, grace) <==>
              e in es && (e.version == active || !e.Expired(now, grace))
  {
    if es == [] {
    } else {
      KeptMembers(es[1..], active, now, grace);
      assert es == [es[0]] + es[1..];
    }
  }

  lemma {:induction false} KeptSnoc(es: seq<KeyEntry>, e: KeyEntry, active: string, now: int, grace: int)
    ensures Kept(es + [e], active, now, grace) ==
            Kept(es, active, now, grace) + if e.version == active || !e.Expired(now, grace) then [e] else []
  {
    if es == [] {
      assert es + [e] == [e];
    } else {
      assert (es + [e])[0] == es[0] && (es + [e])[1..] == es[1..] + [e];
      KeptSnoc(es[1..], e, active, now, grace);
    }
  }

  /** Cleaning up earlier makes no difference to a later reading. */
  lemma {:induction false} KeptLater(es: seq<KeyEntry>, active: string, s: int, t: int, grace: int)
    requires s <= t
    ensures Kept(Kept(es, active, s, grace), active, t, grace) == Kept(es, active, t, grace)
  {
    if es == [] {
    } else {
      KeptLater(es[1..], active, s, t, grace);
      var rest := Kept(es[1..], active, s, grace);
      assert ([es[0]] + rest)[1..] == rest;
    }
  }

  /** The entries whose version is not among `gone`. */
  function Without(es: seq<KeyEntry>, gone: set<string>): seq<KeyEntry> {
    if es == [] then []
    else if es[0].version in gone then Without(es[1..], gone)
    else [es[0]] + Without(es[1..], gone)
  }

  lemma {:induction false} WithoutMore(es: seq<KeyEntry>, a: set<string>, v: string)
    ensures Without(Without(es, a), {v}) == Without(es, a + {v})
  {
    if es == [] {
    } else {
      WithoutMore(es[1..], a, v);
      if es[0].version !in a {
        assert Without(es, a)[1..] == Without(es[1..], a);
      }
    }
  }

  lemma {:induction false} WithoutNothing(es: seq<KeyEntry>)
    ensures Without(es, {}) == es
  {
    if es == [] {
    } else {
      WithoutNothing(es[1..]);
      assert es == [es[0]] + es[1..];
    }
  }

  lemma {:induction false} WithoutExpired(es: seq<KeyEntry>, gone: set<string>, active: string, now: int, grace: int)
    requires forall e :: e in es ==> (e.version in gone <==> e.version != active && e.Expired(now, grace))
    ensures Without(es, gone) == Kept(es, active, now, grace)
  {
    if es == [] {
    } else {
      WithoutExpired(es[1..], gone, active, now, grace);
    }
  }

  lemma {:induction false} KeptDistinct(es: seq<KeyEntry>, active: string, now: int, grace: int)
    requires DistinctVersions(es)
    ensures DistinctVersions(Kept(es, active, now, grace))
  {
    if es == [] {
    } else {
      KeptDistinct(es[1..], active, now, grace);
      assert es[0] == es[0] && forall e :: e in es[1..] ==> e.version != es[0].version;
      KeptMembers(es[1..], active, now, grace);
      var rest := Kept(es[1..], active, now, grace);
      assert forall i :: 0 <= i < |rest| ==> rest[i] in es[1..];
    }
  }

  lemma SameVersionSameEntry(es: seq<KeyEntry>, d: KeyEntry, e: KeyEntry)
    requires DistinctVersions(es) && d in es && e in es && d.version == e.version
    ensures d == e
  {
    var i :| 0 <= i < |es| && es[i] == d;
    var j :| 0 <= j < |es| && es[j] == e;
    assert i == j;
  }

  // ----- Version numbers -----

  function SkipSpaces(s: string): string {
    if s != [] && IsSpace(s[0]) then SkipSpaces(s[1..]) else s
  }

  function DigitPrefix(s: string): (d: string)
    ensures forall c :: c in d ==> IsDigit(c)
  {
    if s != [] && IsDigit(s[0]) then [s[0]] + DigitPrefix(s[1..]) else []
  }

  /** Base-10 `parseInt`; `None` is NaN. */
  function ParseInt(s: string): Option<int> {
    var t := SkipSpaces(s);
    var negative := t != [] && t[0] == '-';
    var digits := DigitPrefix(if t != [] && (t[0] == '-' || t[0] == '+') then t[1..] else t);
    var value: int := DigitsValue(digits);
    if digits == [] then None else Some(if negative then -value else value)
  }

  /** The number in a version such as "v12"; 0 if there is none. */
  function VersionNumber(v: string): int {
    var n := ParseInt(if v != [] && (v[0] == 'v' || v[0] == 'V') then v[1..] else v);
    if n.Some? then n.value else 0
  }

  function MaxVersion(es: seq<KeyEntry>): nat {
    if es == [] then 0 else MaxOf(VersionNumber(es[0].version), MaxVersion(es[1..]))
  }

  lemma {:induction false} MaxVersionIsBound(es: seq<KeyEntry>)
    ensures forall e :: e in es ==> VersionNumber(e.version) <= MaxVersion(es)
  {
    if es == [] {
    } else {
      MaxVersionIsBound(es[1..]);
      assert es == [es[0]] + es[1..];
    }
  }

  function NextVersion(es: seq<KeyEntry>): string { "v" + Decimal(MaxVersion(es) + 1) }

  lemma {:induction false} DigitPrefixOfDigits(s: string)
    requires forall c :: c in s ==> IsDigit(c)
    ensures DigitPrefix(s) == s
  {
    if s == [] {
    } else {
      DigitPrefixOfDigits(s[1..]);
      assert [s[0]] + s[1..] == s;
    }
  }

  lemma ParseIntOfDigits(d: string)
    requires d != [] && forall c :: c in d ==> IsDigit(c)
    ensures ParseInt(d) == Some(DigitsValue(d))
  {
    assert d[0] in d;
    DigitPrefixOfDigits(d);
  }

  lemma VersionRoundTrip(n: nat)
    ensures VersionNumber("v" + Decimal(n)) == n
  {
    DecimalRoundTrip(n);
    ParseIntOfDigits(Decimal(n));
    assert ("v" + Decimal(n))[1..] == Decimal(n);
  }

  lemma {:induction false} DigitPrefixStops(d: string, rest: string)
    requires forall c :: c in d ==> IsDigit(c)
    requires rest != [] ==> !IsDigit(rest[0])
    ensures DigitPrefix(d + rest) == d
  {
    if d == [] {
      assert d + rest == rest;
    } else {
      assert (d + rest)[0] == d[0] && (d + rest)[1..] == d[1..] + rest;
      DigitPrefixStops(d[1..], rest);
    }
  }

  lemma ParseUnsigned(d: string, rest: string)
    requires d != [] && (forall c :: c in d ==> IsDigit(c)) && (rest != [] ==> !IsDigit(rest[0]))
    ensures ParseInt(d + rest) == Some(DigitsValue(d))
  {
    DigitPrefixStops(d, rest);
    assert d[0] in d && (d + rest)[0] == d[0];
  }

  lemma ParseSigned(sign: char, d: string, rest: string)
    requires sign == '-' || sign == '+'
    requires d != [] && (forall c :: c in d ==> IsDigit(c)) && (rest != [] ==> !IsDigit(rest[0]))
    ensures ParseInt([sign] + (d + rest)) == Some(if sign == '-' then 0 - DigitsValue(d) else DigitsValue(d))
  {
    DigitPrefixStops(d, rest);
    assert ([sign] + (d + rest))[1..] == d + rest;
  }

  /** The digits up to the first other character count, with an optional sign; without a digit in
      front there is no number. */
  lemma ParseIntForms(n: nat, rest: string)
    requires rest != [] ==> !IsDigit(rest[0])
    ensures ParseInt(Decimal(n) + rest) == Some(n)
    ensures ParseInt("+" + (Decimal(n) + rest)) == Some(n)
    ensures ParseInt("-" + (Decimal(n) + rest)) == Some(0 - n)
    ensures rest != [] && rest[0] != '-' && rest[0] != '+' && !IsSpace(rest[0]) ==> ParseInt(rest) == None
  {
    DecimalRoundTrip(n);
    ParseUnsigned(Decimal(n), rest);
    ParseSigned('+', Decimal(n), rest);
    ParseSigned('-', Decimal(n), rest);
  }

  /** The numbers of other versions that may be loaded: with a capital letter, without one, with
      something behind the digits; and 0 for one that holds no number. */
  lemma VersionForms(n: nat, rest: string)
    requires rest != [] ==> !IsDigit(rest[0])
    ensures VersionNumber("V" + (Decimal(n) + rest)) == VersionNumber("v" + (Decimal(n) + rest)) == n
    ensures VersionNumber(Decimal(n) + rest) == n
    ensures rest != [] && 'a' <= rest[0] <= 'z' ==> VersionNumber("v" + rest) == 0
  {
    var d := Decimal(n);
    DecimalRoundTrip(n);
    ParseIntForms(n, rest);
    assert ("V" + (d + rest))[1..] == d + rest && ("v" + (d + rest))[1..] == d + rest && ("v" + rest)[1..] == rest;
    assert d[0] in d && (d + rest)[0] == d[0];
  }

  /** A rotation's version is new in the store, and numbered above everything in it. */
  lemma NextVersionIsFresh(es: seq<KeyEntry>)
    ensures VersionNumber(NextVersion(es)) == MaxVersion(es) + 1
    ensures forall e :: e in es ==>
              e.version != NextVersion(es) && VersionNumber(e.version) < VersionNumber(NextVersion(es))
  {
    VersionRoundTrip(MaxVersion(es) + 1);
    MaxVersionIsBound(es);
  }

  // ----- Operations on the store -----

  function Deprecate(k: Keys, now: int, grace: int): Keys {
    k.(entries := Kept(k.entries, k.active, now, grace))
  }

  function Demoted(es: seq<KeyEntry>, active: string, now: int): seq<KeyEntry> {
    if es == [] then []
    else [if es[0].version == active then es[0].(rotatedOutAt := now) else es[0]] + Demoted(es[1..], active, now)
  }

  lemma {:induction false} DemotedVersions(es: seq<KeyEntry>, active: string, now: int)
    ensures |Demoted(es, active, now)| == |es|
    ensures forall i :: 0 <= i < |es| ==> Demoted(es, active, now)[i].version == es[i].version
  {
    if es == [] {
    } else {
      DemotedVersions(es[1..], active, now);
    }
  }

  /** The store right after the new primary is added, before cleanup. */
  function Promote(k: Keys, newKey: string, now: int): Keys {
    var kid := NextVersion(k.entries);
    Keys(Demoted(k.entries, k.active, now) + [KeyEntry(kid, newKey, now, 0)], kid)
  }

  function Rotate(k: Keys, newKey: string, now: int, grace: int): Keys {
    Deprecate(Promote(k, newKey, now), now, grace)
  }

  /** `primary` selects the keys of the active version, otherwise those of the others. */
  function KeyIds(es: seq<KeyEntry>, active: string, primary: bool): seq<KeyId> {
    if es == [] then []
    else
      (if (es[0].version == active) == primary then [KeyId(es[0].key, es[0].version)] else [])
      + KeyIds(es[1..], active, primary)
  }

  lemma {:induction false} KeyIdsSnoc(es: seq<KeyEntry>, e: KeyEntry, active: string, primary: bool)
    ensures KeyIds(es + [e], active, primary) ==
            KeyIds(es, active, primary) + if (e.version == active) == primary then [KeyId(e.key, e.version)] else []
  {
    if es == [] {
      assert es + [e] == [e];
    } else {
      assert (es + [e])[0] == es[0] && (es + [e])[1..] == es[1..] + [e];
      KeyIdsSnoc(es[1..], e, active, primary);
    }
  }

  /** The kept keys, the primary moved to the front and the order otherwise unchanged. */
  function VerificationKeys(k: Keys, now: int, grace: int): seq<KeyId> {
    var kept := Kept(k.entries, k.active, now, grace);
    KeyIds(kept, k.active, true) + KeyIds(kept, k.active, false)
  }

  /** Collects the keys in their grace window, then orders the primary first. Sorting by
      "is primary" is stable, so it splits the keys in two lists. */
  method PrimaryFirst(es: seq<KeyEntry>, active: string, now: int, grace: int) returns (results: seq<KeyId>)
    ensures results == VerificationKeys(Keys(es, active), now, grace)
  {
    var primary: seq<KeyId>, others: seq<KeyId> := [], [];
    for i := 0 to |es|
      invariant primary == KeyIds(Kept(es[..i], active, now, grace), active, true)
      invariant others == KeyIds(Kept(es[..i], active, now, grace), active, false)
    {
      var e := es[i];
      assert es[..i + 1] == es[..i] + [e];
      ghost var kept := Kept(es[..i], active, now, grace);
      KeptSnoc(es[..i], e, active, now, grace);
      KeyIdsSnoc(kept, e, active, true);
      KeyIdsSnoc(kept, e, active, false);
      assert kept + [] == kept;
      if e.version == active {
        primary := primary + [KeyId(e.key, e.version)];
      } else if !e.Expired(now, grace) {
        others := others + [KeyId(e.key, e.version)];
      }
    }
    assert es[..|es|] == es;
    results := primary + others;
  }

  lemma {:induction false} KeyIdsMembers(es: seq<KeyEntry>, active: string, primary: bool, e: KeyEntry)
    requires DistinctVersions(es)
    ensures e in es && (e.version == active) == primary ==> KeyId(e.key, e.version) in KeyIds(es, active, primary)
    ensures forall id :: id in KeyIds(es, active, primary) ==>
              exists d :: d in es && id == KeyId(d.key, d.version) && (d.version == active) == primary
  {
    if es == [] {
    } else {
      KeyIdsMembers(es[1..], active, primary, e);
      assert es == [es[0]] + es[1..];
    }
  }

  /** Exactly which keys of a store verify: the primary, and each other for a grace period after it
      was rotated out, or after it was created if it never was. */
  lemma VerifiesExactly(k: Keys, now: int, grace: int, e: KeyEntry)
    requires DistinctVersions(k.entries) && e in k.entries
    ensures KeyId(e.key, e.version) in VerificationKeys(k, now, grace) <==>
            || e.version == k.active
            || (e.rotatedOutAt != 0 && now < e.rotatedOutAt + grace)
            || (e.rotatedOutAt == 0 && now < e.createdAt + grace)
  {
    var kept := Kept(k.entries, k.active, now, grace);
    KeptMembers(k.entries, k.active, now, grace);
    KeptDistinct(k.entries, k.active, now, grace);
    KeyIdsMembers(kept, k.active, true, e);
    KeyIdsMembers(kept, k.active, false, e);
    forall d | d in kept && d.version == e.version
      ensures d == e
    {
      SameVersionSameEntry(k.entries, d, e);
    }
  }

  lemma PromoteDistinct(k: Keys, newKey: string, now: int)
    requires DistinctVersions(k.entries)
    ensures DistinctVersions(Promote(k, newKey, now).entries)
  {
    NextVersionIsFresh(k.entries);
    DemotedVersions(k.entries, k.active, now);
    var es := Promote(k, newKey, now).entries;
    forall i, j | 0 <= i < j < |es|
      ensures es[i].version != es[j].version
    {
      assert es[i].version == k.entries[i].version && k.entries[i] in k.entries;
    }
  }

  class KeyStore {
    const grace: int
    var entries: seq<KeyEntry>
    var activeVersion: string

    /** A loaded store; loading it from the environment is not modelled. */
    constructor (grace: int, entries: seq<KeyEntry>, activeVersion: string)
      requires DistinctVersions(entries)
      ensures Valid() && this.grace == grace
      ensures Contents() == Keys(entries, activeVersion)
    {
      this.grace, this.entries, this.activeVersion := grace, entries, activeVersion;
    }

    ghost predicate Valid()
      reads this
    {
      DistinctVersions(entries)
    }

    ghost function Contents(): Keys
      reads this
    {
      Keys(entries, activeVersion)
    }

    method DeprecateExpiredKeys(now: int) returns (expired: seq<string>)
      requires Valid()
      modifies this
      ensures Valid()
      ensures Contents() == Deprecate(old(Contents()), now, grace)
      ensures forall e :: e in old(entries) ==> (e.version in expired <==> e !in entries)
    {
      expired := [];
      ghost var gone: set<string> := {};
      for i := 0 to |entries|
        invariant forall v :: v in gone <==> v in expired
        invariant forall v :: v in gone <==>
                    exists j :: 0 <= j < i && entries[j].version == v && v != activeVersion &&
                                entries[j].Expired(now, grace)
      {
        if entries[i].version != activeVersion && entries[i].Expired(now, grace) {
          expired, gone := expired + [entries[i].version], gone + {entries[i].version};
        }
      }
      WithoutExpired(entries, gone, activeVersion, now, grace);
      KeptDistinct(entries, activeVersion, now, grace);
      KeptMembers(entries, activeVersion, now, grace);
      WithoutNothing(entries);
      ghost var deleted: set<string> := {};
      for i := 0 to |expired|
        invariant activeVersion == old(activeVersion)
        invariant forall v :: v in deleted <==> v in expired[..i]
        invariant entries == Without(old(entries), deleted)
      {
        WithoutMore(old(entries), deleted, expired[i]);
        entries := Without(entries, {expired[i]});
        deleted := deleted + {expired[i]};
      }
      assert deleted == gone;
    }

    method GetActiveSigningKey() returns (r: Result<KeyId, Missing>)
      requires Valid()
      ensures r.Ok? <==> Contents().HasActive()
      ensures r.Ok? ==> r.value.kid == activeVersion &&
                        exists e :: e in entries && e.version == activeVersion && e.key == r.value.key
    {
      for i := 0 to |entries|
        invariant forall j :: 0 <= j < i ==> entries[j].version != activeVersion
      {
        if entries[i].version == activeVersion {
          return Ok(KeyId(entries[i].key, entries[i].version));
        }
      }
      r := Err(ActiveKeyNotFound);
    }

    /** Cleans up at one reading of the clock and filters at a second one. */
    method GetVerificationKeys(cleanupAt: int, now: int) returns (r: Result<seq<KeyId>, Missing>)
      requires Valid()
      modifies this
      ensures Valid()
      ensures Contents() == Deprecate(old(Contents()), cleanupAt, grace)
      ensures var keys := VerificationKeys(Deprecate(old(Contents()), cleanupAt, grace), now, grace);
              r == if keys == [] then Err(NoVerificationKeys) else Ok(keys)
      ensures cleanupAt <= now && r.Ok? ==> r.value == VerificationKeys(old(Contents()), now, grace)
    {
      KeptMembers(entries, activeVersion, cleanupAt, grace);
      if cleanupAt <= now {
        KeptLater(entries, activeVersion, cleanupAt, now, grace);
      }
      var _ := DeprecateExpiredKeys(cleanupAt);
      var results := PrimaryFirst(entries, activeVersion, now, grace);
      r := if results == [] then Err(NoVerificationKeys) else Ok(results);
    }

    method RotateKey(newKey: string, now: int) returns (oldKid: string, newKid: string)
      requires Valid()
      modifies this
      ensures Valid()
      ensures Contents() == Rotate(old(Contents()), newKey, now, grace)
      ensures oldKid == old(activeVersion) && newKid == activeVersion
    {
      PromoteDistinct(Contents(), newKey, now);
      newKid := NextVersion(entries);
      oldKid := activeVersion;
      entries := Demoted(entries, oldKid, now);
      entries := entries + [KeyEntry(newKid, newKey, now, 0)];
      activeVersion := newKid;
      assert Contents() == Promote(old(Contents()), newKey, now);
      var _ := DeprecateExpiredKeys(now);
    }
  }

  // ----- The history-based specification -----

  /** A key that was ever in the store. `retired` is the time from which its grace window
      runs; the primary has none. */
  datatype Issued = Issued(kid: string, key: string, retired: Option<int>) {
    predicate Live(now: int, grace: int) { retired.None? || now - retired.value < grace }
  }

  /** How the store reads as a history. */
  function HistoryOf(es: seq<KeyEntry>, active: string): seq<Issued> {
    if es == [] then []
    else [Issued(es[0].version, es[0].key, if es[0].version == active then None else Some(es[0].DeprecationTime()))]
         + HistoryOf(es[1..], active)
  }

  /** A rotation only ever adds to the history: nothing is cleaned up. */
  function Retire(h: seq<Issued>, now: int): seq<Issued> {
    if h == [] then []
    else [if h[0].retired.None? then h[0].(retired := Some(now)) else h[0]] + Retire(h[1..], now)
  }

  function Live(h: seq<Issued>, now: int, grace: int): seq<Issued> {
    if h == [] then []
    else if h[0].Live(now, grace) then [h[0]] + Live(h[1..], now, grace)
    else Live(h[1..], now, grace)
  }

  function Ids(h: seq<Issued>, primary: bool): seq<KeyId> {
    if h == [] then []
    else (if h[0].retired.None? == primary then [KeyId(h[0].key, h[0].kid)] else []) + Ids(h[1..], primary)
  }

  /** What verification should accept at `now`: the primary first, then every other key of
      the whole history that is inside its grace window. */
  function Expected(h: seq<Issued>, now: int, grace: int): seq<KeyId> {
    Ids(Live(h, now, grace), true) + Ids(Live(h, now, grace), false)
  }

  lemma {:induction false} KeptReadsAsLive(es: seq<KeyEntry>, active: string, now: int, grace: int)
    ensures HistoryOf(Kept(es, active, now, grace), active) == Live(HistoryOf(es, active), now, grace)
  {
    if es == [] {
    } else {
      KeptReadsAsLive(es[1..], active, now, grace);
      var rest := Kept(es[1..], active, now, grace);
      assert ([es[0]] + rest)[1..] == rest;
      assert HistoryOf(es, active)[1..] == HistoryOf(es[1..], active);
    }
  }

  lemma {:induction false} KeyIdsReadAsIds(es: seq<KeyEntry>, active: string, primary: bool)
    ensures KeyIds(es, active, primary) == Ids(HistoryOf(es, active), primary)
  {
    if es == [] {
    } else {
      KeyIdsReadAsIds(es[1..], active, primary);
      assert HistoryOf(es, active)[1..] == HistoryOf(es[1..], active);
    }
  }

  /** The store answers for its own contents as the specification would. */
  lemma StoreAnswers(k: Keys, now: int, grace: int)
    ensures VerificationKeys(k, now, grace) == Expected(HistoryOf(k.entries, k.active), now, grace)
  {
    var kept := Kept(k.entries, k.active, now, grace);
    KeptReadsAsLive(k.entries, k.active, now, grace);
    KeyIdsReadAsIds(kept, k.active, true);
    KeyIdsReadAsIds(kept, k.active, false);
  }

  /** A key that is out of its window stays out. */
  lemma {:induction false} LiveLater(h: seq<Issued>, s: int, t: int, grace: int)
    requires s <= t
    ensures Live(Live(h, s, grace), t, grace) == Live(h, t, grace)
  {
    if h == [] {
    } else {
      LiveLater(h[1..], s, t, grace);
      if h[0].Live(s, grace) {
        assert Live(h, s, grace)[1..] == Live(h[1..], s, grace);
      }
    }
  }

  /** Retiring the primary does not depend on keys that are already out. */
  lemma {:induction false} RetireLive(h: seq<Issued>, now: int, grace: int)
    ensures Live(Retire(Live(h, now, grace), now), now, grace) == Live(Retire(h, now), now, grace)
  {
    if h == [] {
    } else {
      RetireLive(h[1..], now, grace);
      var rest := Live(h[1..], now, grace);
      assert Retire(h, now)[1..] == Retire(h[1..], now);
      if h[0].Live(now, grace) {
        assert Live(h, now, grace)[0] == h[0] && Live(h, now, grace)[1..] == rest;
        assert Retire(Live(h, now, grace), now)[1..] == Retire(rest, now);
      }
    }
  }

  lemma {:induction false} LiveConcat(a: seq<Issued>, b: seq<Issued>, now: int, grace: int)
    ensures Live(a + b, now, grace) == Live(a, now, grace) + Live(b, now, grace)
  {
    if a == [] {
      assert a + b == b;
    } else {
      assert (a + b)[0] == a[0] && (a + b)[1..] == a[1..] + b;
      LiveConcat(a[1..], b, now, grace);
    }
  }

  lemma {:induction false} HistoryConcat(a: seq<KeyEntry>, b: seq<KeyEntry>, active: string)
    ensures HistoryOf(a + b, active) == HistoryOf(a, active) + HistoryOf(b, active)
  {
    if a == [] {
      assert a + b == b;
    } else {
      assert (a + b)[0] == a[0] && (a + b)[1..] == a[1..] + b;
      HistoryConcat(a[1..], b, active);
    }
  }

  lemma {:induction false} DemotedReadsAsRetire(es: seq<KeyEntry>, active: string, kid: string, now: int)
    requires now != 0
    requires forall i :: 0 <= i < |es| ==> es[i].version != kid
    ensures HistoryOf(Demoted(es, active, now), kid) == Retire(HistoryOf(es, active), now)
  {
    if es == [] {
    } else {
      DemotedReadsAsRetire(es[1..], active, kid, now);
      assert Demoted(es, active, now)[1..] == Demoted(es[1..], active, now);
      assert HistoryOf(es, active)[1..] == HistoryOf(es[1..], active);
    }
  }

  lemma PromoteReadsAsRetire(k: Keys, newKey: string, now: int)
    requires now != 0
    ensures var p := Promote(k, newKey, now);
            HistoryOf(p.entries, p.active) ==
            Retire(HistoryOf(k.entries, k.active), now) + [Issued(p.active, newKey, None)]
  {
    var kid := NextVersion(k.entries);
    var added := KeyEntry(kid, newKey, now, 0);
    NextVersionIsFresh(k.entries);
    DemotedReadsAsRetire(k.entries, k.active, kid, now);
    HistoryConcat(Demoted(k.entries, k.active, now), [added], kid);
    assert HistoryOf([added], kid) == [Issued(kid, newKey, None)];
  }

  // ----- Runs -----

  datatype Op = RotateOp(newKey: string, now: int) | CleanupOp(now: int) | VerifyOp(now: int)

  /** The store, and beside it the log of all keys as they were issued, which nothing is ever
      removed from. */
  datatype System = System(store: Keys, history: seq<Issued>)

  function StartOf(k: Keys): System { System(k, HistoryOf(k.entries, k.active)) }

  function Step(s: System, op: Op, grace: int): System {
    match op
    case RotateOp(newKey, now) =>
      System(Rotate(s.store, newKey, now, grace),
             Retire(s.history, now) + [Issued(NextVersion(s.store.entries), newKey, None)])
    case CleanupOp(now) => s.(store := Deprecate(s.store, now, grace))
    case VerifyOp(now) => s.(store := Deprecate(s.store, now, grace))
  }

  function Run(s: System, ops: seq<Op>, grace: int): System
    decreases |ops|
  {
    if ops == [] then s else Run(Step(s, ops[0], grace), ops[1..], grace)
  }

  /** A positive clock that never runs backwards, from `start` on. */
  predicate Clocked(ops: seq<Op>, start: int) {
    && (forall i :: 0 <= i < |ops| ==> 0 < ops[i].now && start <= ops[i].now)
    && (forall i, j :: 0 <= i < j < |ops| ==> ops[i].now <= ops[j].now)
  }

  /** The time of the last operation. */
  function Latest(ops: seq<Op>, start: int): int { if ops == [] then start else ops[|ops| - 1].now }

  predicate Agree(s: System, now: int, grace: int) {
    Live(HistoryOf(s.store.entries, s.store.active), now, grace) == Live(s.history, now, grace)
  }

  lemma AgreeLater(s: System, t: int, now: int, grace: int)
    requires Agree(s, t, grace) && t <= now
    ensures Agree(s, now, grace)
  {
    LiveLater(HistoryOf(s.store.entries, s.store.active), t, now, grace);
    LiveLater(s.history, t, now, grace);
  }

  lemma CleanupAgrees(s: System, now: int, grace: int)
    requires Agree(s, now, grace)
    ensures Agree(s.(store := Deprecate(s.store, now, grace)), now, grace)
  {
    KeptReadsAsLive(s.store.entries, s.store.active, now, grace);
    LiveLater(HistoryOf(s.store.entries, s.store.active), now, now, grace);
  }

  lemma RotateAgrees(s: System, newKey: string, now: int, grace: int)
    requires Agree(s, now, grace) && now > 0
    ensures Agree(Step(s, RotateOp(newKey, now), grace), now, grace)
  {
    var k := s.store;
    var kid := NextVersion(k.entries);
    var h, added := HistoryOf(k.entries, k.active), [Issued(kid, newKey, None)];
    var p := Promote(k, newKey, now);
    PromoteReadsAsRetire(k, newKey, now);
    RetireLive(h, now, grace);
    RetireLive(s.history, now, grace);
    LiveConcat(Retire(h, now), added, now, grace);
    LiveConcat(Retire(s.history, now), added, now, grace);
    KeptReadsAsLive(p.entries, p.active, now, grace);
    LiveLater(HistoryOf(p.entries, p.active), now, now, grace);
  }

  lemma StepAgrees(s: System, op: Op, t: int, grace: int)
    requires Agree(s, t, grace) && t <= op.now && 0 < op.now
    ensures Agree(Step(s, op, grace), op.now, grace)
  {
    AgreeLater(s, t, op.now, grace);
    match op
    case RotateOp(newKey, now) => RotateAgrees(s, newKey, now, grace);
    case CleanupOp(now) => CleanupAgrees(s, now, grace);
    case VerifyOp(now) => CleanupAgrees(s, now, grace);
  }

  lemma ClockedRest(ops: seq<Op>, start: int)
    requires Clocked(ops, start) && ops != []
    ensures Clocked(ops[1..], ops[0].now) && Latest(ops[1..], ops[0].now) == Latest(ops, start)
  {
  }

  lemma {:induction false} RunAgrees(s: System, ops: seq<Op>, start: int, grace: int)
    requires Agree(s, start, grace) && Clocked(ops, start)
    ensures Agree(Run(s, ops, grace), Latest(ops, start), grace)
    decreases |ops|
  {
    if ops == [] {
    } else {
      ClockedRest(ops, start);
      StepAgrees(s, ops[0], start, grace);
      RunAgrees(Step(s, ops[0], grace), ops[1..], ops[0].now, grace);
    }
  }

  /** After every run, verification at any later time returns exactly the primary, then the
      keys of the whole log inside their grace window. */
  lemma VerificationMatchesLog(k: Keys, ops: seq<Op>, start: int, now: int, grace: int)
    requires Clocked(ops, start) && Latest(ops, start) <= now
    ensures var s := Run(StartOf(k), ops, grace);
            VerificationKeys(s.store, now, grace) == Expected(s.history, now, grace)
  {
    var s := Run(StartOf(k), ops, grace);
    RunAgrees(StartOf(k), ops, start, grace);
    AgreeLater(s, Latest(ops, start), now, grace);
    StoreAnswers(s.store, now, grace);
  }

  // ----- The primary leads -----

  predicate WellFormed(k: Keys) { DistinctVersions(k.entries) && k.HasActive() }

  lemma DeprecateKeepsWellFormed(k: Keys, now: int, grace: int)
    requires WellFormed(k)
    ensures WellFormed(Deprecate(k, now, grace))
  {
    KeptDistinct(k.entries, k.active, now, grace);
    KeptMembers(k.entries, k.active, now, grace);
    var e :| e in k.entries && e.version == k.active;
    assert e in Deprecate(k, now, grace).entries;
  }

  lemma StepKeepsWellFormed(s: System, op: Op, grace: int)
    requires WellFormed(s.store)
    ensures WellFormed(Step(s, op, grace).store)
  {
    if op.RotateOp? {
      var p := Promote(s.store, op.newKey, op.now);
      PromoteDistinct(s.store, op.newKey, op.now);
      assert p.entries[|p.entries| - 1] in p.entries;
      DeprecateKeepsWellFormed(p, op.now, grace);
    } else {
      DeprecateKeepsWellFormed(s.store, op.now, grace);
    }
  }

  lemma {:induction false} NoPrimary(es: seq<KeyEntry>, active: string)
    requires forall i :: 0 <= i < |es| ==> es[i].version != active
    ensures KeyIds(es, active, true) == []
  {
    if es == [] {
    } else {
      NoPrimary(es[1..], active);
    }
  }

  lemma {:induction false} OnlyPrimary(es: seq<KeyEntry>, e: KeyEntry)
    requires DistinctVersions(es) && e in es
    ensures KeyIds(es, e.version, true) == [KeyId(e.key, e.version)]
  {
    if es[0] == e {
      NoPrimary(es[1..], e.version);
    } else {
      assert e in es[1..];
      OnlyPrimary(es[1..], e);
    }
  }

  lemma {:induction false} OthersAreSecondary(es: seq<KeyEntry>, active: string)
    ensures forall k :: k in KeyIds(es, active, false) ==> k.kid != active
  {
    if es == [] {
    } else {
      OthersAreSecondary(es[1..], active);
    }
  }

  /** In every run from a store that holds its primary, verification succeeds, the primary
      comes first, and no other key carries its id. */
  lemma {:induction false} PrimaryLeads(s: System, ops: seq<Op>, now: int, grace: int)
    requires WellFormed(s.store)
    ensures var k := Run(s, ops, grace).store;
            var keys := VerificationKeys(k, now, grace);
            keys != [] && forall i :: 0 <= i < |keys| ==> (keys[i].kid == k.active <==> i == 0)
    decreases |ops|
  {
    if ops == [] {
      var k := s.store;
      DeprecateKeepsWellFormed(k, now, grace);
      var kept := Kept(k.entries, k.active, now, grace);
      var e :| e in kept && e.version == k.active;
      OnlyPrimary(kept, e);
      OthersAreSecondary(kept, k.active);
    } else {
      StepKeepsWellFormed(s, ops[0], grace);
      PrimaryLeads(Step(s, ops[0], grace), ops[1..], now, grace);
    }
  }

  // ----- Zero downtime -----

  lemma {:induction false} ExpectedContains(h: seq<Issued>, now: int, grace: int, i: nat)
    requires i < |h| && h[i].Live(now, grace)
    ensures KeyId(h[i].key, h[i].kid) in Expected(h, now, grace)
  {
    if i > 0 {
      ExpectedContains(h[1..], now, grace, i - 1);
    }
    if h[0].Live(now, grace) {
      assert Live(h, now, grace)[1..] == Live(h[1..], now, grace);
    }
  }

  lemma {:induction false} RetireAt(h: seq<Issued>, now: int, i: nat)
    requires i < |h|
    ensures |Retire(h, now)| == |h|
    ensures Retire(h, now)[i] == if h[i].retired.None? then h[i].(retired := Some(now)) else h[i]
  {
    if i > 0 {
      RetireAt(h[1..], now, i - 1);
    } else if |h| > 1 {
      RetireAt(h[1..], now, 0);
    }
  }

  /** A key that was primary at `start` has not been retired before `start`. */
  lemma {:induction false} PrimaryRetiresLater(s: System, ops: seq<Op>, start: int, grace: int, i: nat)
    requires i < |s.history| && Clocked(ops, start)
    requires s.history[i].retired.None? || s.history[i].retired.value >= start
    ensures var h := Run(s, ops, grace).history;
            && i < |h| && h[i].kid == s.history[i].kid && h[i].key == s.history[i].key
            && (h[i].retired.None? || h[i].retired.value >= start)
    decreases |ops|
  {
    if ops == [] {
    } else {
      RetireAt(s.history, ops[0].now, i);
      PrimaryRetiresLater(Step(s, ops[0], grace), ops[1..], start, grace, i);
    }
  }

  /** A key that is primary at time `start` verifies at every time before `start` plus the
      grace period, through any number of rotations, cleanups and verifications. */
  lemma ZeroDowntime(k: Keys, before: seq<Op>, ops: seq<Op>, zero: int, start: int, now: int, grace: int, i: nat)
    requires Clocked(before, zero) && Latest(before, zero) <= start
    requires Clocked(ops, start) && Latest(ops, start) <= now < start + grace
    requires var s := Run(StartOf(k), before, grace); i < |s.history| && s.history[i].retired.None?
    ensures var s := Run(StartOf(k), before, grace);
            KeyId(s.history[i].key, s.history[i].kid) in VerificationKeys(Run(s, ops, grace).store, now, grace)
  {
    var s := Run(StartOf(k), before, grace);
    var s' := Run(s, ops, grace);
    RunAgrees(StartOf(k), before, zero, grace);
    AgreeLater(s, Latest(before, zero), start, grace);
    RunAgrees(s, ops, start, grace);
    AgreeLater(s', Latest(ops, start), now, grace);
    StoreAnswers(s'.store, now, grace);
    PrimaryRetiresLater(s, ops, start, grace, i);
    ExpectedContains(s'.history, now, grace, i);
  }

  // ----- Key ids -----

  /** The primary carries the highest number in the store. */
  predicate PrimaryOnTop(k: Keys) {
    k.HasActive() && forall e :: e in k.entries ==> VersionNumber(e.version) <= VersionNumber(k.active)
  }

  lemma RotatePutsOnTop(k: Keys, newKey: string, now: int, grace: int)
    ensures PrimaryOnTop(Rotate(k, newKey, now, grace))
    ensures Rotate(k, newKey, now, grace).active == NextVersion(k.entries)
  {
    NextVersionIsFresh(k.entries);
    DemotedVersions(k.entries, k.active, now);
    var p := Promote(k, newKey, now);
    KeptMembers(p.entries, p.active, now, grace);
    var last := p.entries[|p.entries| - 1];
    assert last in Rotate(k, newKey, now, grace).entries;
    forall e | e in p.entries
      ensures VersionNumber(e.version) <= VersionNumber(p.active)
    {
      var i :| 0 <= i < |p.entries| && p.entries[i] == e;
      if i < |k.entries| {
        assert k.entries[i] in k.entries && e.version == k.entries[i].version;
      }
    }
  }

  /** The numbers of the versions that a run of rotations issues. */
  function IssuedNumbers(s: System, ops: seq<Op>, grace: int): seq<int>
    decreases |ops|
  {
    if ops == [] then []
    else
      (if ops[0].RotateOp? then [VersionNumber(NextVersion(s.store.entries))] else [])
      + IssuedNumbers(Step(s, ops[0], grace), ops[1..], grace)
  }

  lemma StepKeepsTop(s: System, op: Op, grace: int)
    requires PrimaryOnTop(s.store)
    ensures var s' := Step(s, op, grace);
            && PrimaryOnTop(s'.store)
            && (if op.RotateOp?
                then s'.store.active == NextVersion(s.store.entries) &&
                     VersionNumber(s.store.active) < VersionNumber(s'.store.active)
                else s'.store.active == s.store.active)
  {
    var e :| e in s.store.entries && e.version == s.store.active;
    if op.RotateOp? {
      RotatePutsOnTop(s.store, op.newKey, op.now, grace);
      NextVersionIsFresh(s.store.entries);
    } else {
      KeptMembers(s.store.entries, s.store.active, op.now, grace);
      assert e in Step(s, op, grace).store.entries;
    }
  }

  /** Strictly increasing, and all above `low`. */
  predicate Increasing(ns: seq<int>, low: int) {
    && (forall i :: 0 <= i < |ns| ==> low < ns[i])
    && (forall i, j :: 0 <= i < j < |ns| ==> ns[i] < ns[j])
  }

  lemma IncreasingCons(n: int, ns: seq<int>, low: int)
    requires low < n && Increasing(ns, n)
    ensures Increasing([n] + ns, low)
  {
  }

  lemma IssuedNumbersStep(s: System, ops: seq<Op>, grace: int)
    requires ops != []
    ensures var rest := IssuedNumbers(Step(s, ops[0], grace), ops[1..], grace);
            IssuedNumbers(s, ops, grace) ==
            if ops[0].RotateOp? then [VersionNumber(NextVersion(s.store.entries))] + rest else rest
  {
  }

  lemma {:induction false} NumbersIncreaseFrom(s: System, ops: seq<Op>, grace: int)
    requires PrimaryOnTop(s.store)
    ensures Increasing(IssuedNumbers(s, ops, grace), VersionNumber(s.store.active))
    decreases |ops|
  {
    if ops == [] {
    } else {
      var s' := Step(s, ops[0], grace);
      StepKeepsTop(s, ops[0], grace);
      NumbersIncreaseFrom(s', ops[1..], grace);
      IssuedNumbersStep(s, ops, grace);
      if ops[0].RotateOp? {
        IncreasingCons(VersionNumber(s'.store.active), IssuedNumbers(s', ops[1..], grace),
                       VersionNumber(s.store.active));
      }
    }
  }

  /** The key ids of successive rotations are strictly increasing, from any store. */
  lemma {:induction false} NumbersIncrease(s: System, ops: seq<Op>, grace: int)
    ensures Increasing(IssuedNumbers(s, ops, grace), 0)
    decreases |ops|
  {
    if ops == [] {
    } else {
      var s' := Step(s, ops[0], grace);
      IssuedNumbersStep(s, ops, grace);
      if ops[0].RotateOp? {
        RotatePutsOnTop(s.store, ops[0].newKey, ops[0].now, grace);
        NextVersionIsFresh(s.store.entries);
        NumbersIncreaseFrom(s', ops[1..], grace);
        IncreasingCons(VersionNumber(s'.store.active), IssuedNumbers(s', ops[1..], grace), 0);
      } else {
        NumbersIncrease(s', ops[1..], grace);
      }
    }
  }

  // ----- When cleanup is unobservable -----

  /** The highest number among the key ids, at least 0. */
  function MaxKid(h: seq<Issued>): nat {
    if h == [] then 0 else MaxOf(VersionNumber(h[0].kid), MaxKid(h[1..]))
  }

  function NextKid(h: seq<Issued>): string { "v" + Decimal(MaxKid(h) + 1) }

  /** Rotation as it would be if nothing were ever removed: the new id is numbered above all
      keys there have been. */
  function Remember(h: seq<Issued>, op: Op): seq<Issued> {
    if op.RotateOp? then Retire(h, op.now) + [Issued(NextKid(h), op.newKey, None)] else h
  }

  function Recall(h: seq<Issued>, ops: seq<Op>): seq<Issued>
    decreases |ops|
  {
    if ops == [] then h else Recall(Remember(h, ops[0]), ops[1..])
  }

  /** Every number in the store is covered by the primary's, or not positive. */
  predicate NothingAbovePrimary(k: Keys) {
    forall e :: e in k.entries && VersionNumber(e.version) > 0 ==>
      k.HasActive() && VersionNumber(e.version) <= VersionNumber(k.active)
  }

  lemma {:induction false} MaxVersionAttained(es: seq<KeyEntry>)
    ensures MaxVersion(es) == 0 || exists e :: e in es && VersionNumber(e.version) == MaxVersion(es)
  {
    if es == [] {
    } else {
      MaxVersionAttained(es[1..]);
      assert es == [es[0]] + es[1..];
    }
  }

  lemma {:induction false} MaxKidOfHistory(es: seq<KeyEntry>, active: string)
    ensures MaxKid(HistoryOf(es, active)) == MaxVersion(es)
  {
    if es == [] {
    } else {
      MaxKidOfHistory(es[1..], active);
      assert HistoryOf(es, active)[1..] == HistoryOf(es[1..], active);
    }
  }

  lemma {:induction false} MaxKidRemember(h: seq<Issued>, now: int, added: Issued)
    ensures MaxKid(Retire(h, now) + [added]) == MaxOf(MaxKid(h), VersionNumber(added.kid))
  {
    var all := Retire(h, now) + [added];
    if h == [] {
      assert all[1..] == [];
    } else {
      MaxKidRemember(h[1..], now, added);
      assert all[0].kid == h[0].kid && all[1..] == Retire(h[1..], now) + [added];
    }
  }

  /** Cleanup leaves the primary, and with it the highest number. */
  lemma DeprecateKeepsMax(k: Keys, now: int, grace: int)
    requires NothingAbovePrimary(k)
    ensures MaxVersion(Deprecate(k, now, grace).entries) == MaxVersion(k.entries)
    ensures NothingAbovePrimary(Deprecate(k, now, grace))
  {
    var kept := Kept(k.entries, k.active, now, grace);
    KeptMembers(k.entries, k.active, now, grace);
    MaxVersionIsBound(k.entries);
    MaxVersionIsBound(kept);
    MaxVersionAttained(k.entries);
    MaxVersionAttained(kept);
    if k.HasActive() {
      var p :| p in k.entries && p.version == k.active;
      assert p in kept;
    }
  }

  lemma PromoteRaisesMax(k: Keys, newKey: string, now: int)
    ensures var p := Promote(k, newKey, now);
            MaxVersion(p.entries) == MaxVersion(k.entries) + 1 && NothingAbovePrimary(p)
  {
    var p := Promote(k, newKey, now);
    NextVersionIsFresh(k.entries);
    DemotedVersions(k.entries, k.active, now);
    forall e | e in p.entries
      ensures VersionNumber(e.version) <= VersionNumber(p.active)
    {
      var i :| 0 <= i < |p.entries| && p.entries[i] == e;
      if i < |k.entries| {
        assert k.entries[i] in k.entries && e.version == k.entries[i].version;
      }
    }
    assert p.entries[|p.entries| - 1] in p.entries;
    MaxVersionIsBound(p.entries);
    MaxVersionAttained(p.entries);
  }

  /** Store and log are numbered alike. */
  predicate InStep(s: System) { NothingAbovePrimary(s.store) && MaxVersion(s.store.entries) == MaxKid(s.history) }

  lemma RotateRaisesMax(k: Keys, newKey: string, now: int, grace: int)
    ensures var k' := Rotate(k, newKey, now, grace);
            MaxVersion(k'.entries) == MaxVersion(k.entries) + 1 && NothingAbovePrimary(k')
  {
    PromoteRaisesMax(k, newKey, now);
    DeprecateKeepsMax(Promote(k, newKey, now), now, grace);
  }

  lemma RememberRaisesMax(h: seq<Issued>, newKey: string, now: int)
    ensures MaxKid(Remember(h, RotateOp(newKey, now))) == MaxKid(h) + 1
  {
    VersionRoundTrip(MaxKid(h) + 1);
    MaxKidRemember(h, now, Issued(NextKid(h), newKey, None));
  }

  lemma StepRecalls(s: System, op: Op, grace: int)
    requires InStep(s)
    ensures InStep(Step(s, op, grace)) && Step(s, op, grace).history == Remember(s.history, op)
  {
    if op.RotateOp? {
      RotateRaisesMax(s.store, op.newKey, op.now, grace);
      RememberRaisesMax(s.history, op.newKey, op.now);
    } else {
      DeprecateKeepsMax(s.store, op.now, grace);
    }
  }

  lemma {:induction false} RunRecalls(s: System, ops: seq<Op>, grace: int)
    requires InStep(s)
    ensures Run(s, ops, grace).history == Recall(s.history, ops)
    decreases |ops|
  {
    if ops == [] {
    } else {
      StepRecalls(s, ops[0], grace);
      RunRecalls(Step(s, ops[0], grace), ops[1..], grace);
    }
  }

  predicate DistinctKids(h: seq<Issued>) { forall i, j :: 0 <= i < j < |h| ==> h[i].kid != h[j].kid }

  lemma {:induction false} MaxKidIsBound(h: seq<Issued>, i: nat)
    requires i < |h|
    ensures VersionNumber(h[i].kid) <= MaxKid(h)
  {
    if i == 0 {
    } else {
      MaxKidIsBound(h[1..], i - 1);
    }
  }

  lemma RememberDistinct(h: seq<Issued>, op: Op)
    requires DistinctKids(h)
    ensures DistinctKids(Remember(h, op))
  {
    if op.RotateOp? {
      VersionRoundTrip(MaxKid(h) + 1);
      var h' := Remember(h, op);
      if h != [] {
        RetireAt(h, op.now, 0);
      }
      forall i, j | 0 <= i < j < |h'|
        ensures h'[i].kid != h'[j].kid
      {
        RetireAt(h, op.now, i);
        MaxKidIsBound(h, i);
        if j < |h| {
          RetireAt(h, op.now, j);
        }
      }
    }
  }

  lemma {:induction false} RecallDistinct(h: seq<Issued>, ops: seq<Op>)
    requires DistinctKids(h)
    ensures DistinctKids(Recall(h, ops))
    decreases |ops|
  {
    if ops == [] {
    } else {
      RememberDistinct(h, ops[0]);
      RecallDistinct(Remember(h, ops[0]), ops[1..]);
    }
  }

  lemma {:induction false} HistoryKids(es: seq<KeyEntry>, active: string)
    ensures |HistoryOf(es, active)| == |es|
    ensures forall i :: 0 <= i < |es| ==> HistoryOf(es, active)[i].kid == es[i].version
  {
    if es == [] {
    } else {
      HistoryKids(es[1..], active);
    }
  }

  /** If no number is above the primary's, no key id is ever issued twice, over all keys there
      have been, and every run issues the ids that it would issue without cleanup. */
  lemma KidsAreNeverReissued(k: Keys, ops: seq<Op>, grace: int)
    requires DistinctVersions(k.entries) && NothingAbovePrimary(k)
    ensures var log := Run(StartOf(k), ops, grace).history;
            DistinctKids(log) && log == Recall(HistoryOf(k.entries, k.active), ops)
  {
    MaxKidOfHistory(k.entries, k.active);
    RunRecalls(StartOf(k), ops, grace);
    HistoryKids(k.entries, k.active);
    RecallDistinct(HistoryOf(k.entries, k.active), ops);
  }

  /** One instance of cleanup being unobservable: verification answers as if nothing had ever
      been removed. */
  predicate Unobserved(k: Keys, ops: seq<Op>, start: int, now: int, grace: int) {
    Clocked(ops, start) && Latest(ops, start) <= now ==>
      VerificationKeys(Run(StartOf(k), ops, grace).store, now, grace) ==
      Expected(Recall(HistoryOf(k.entries, k.active), ops), now, grace)
  }

  /** A time at which every entry is out of its window. */
  lemma {:induction false} AllExpire(es: seq<KeyEntry>, start: int, grace: int) returns (t: int)
    ensures t > 0 && t >= start && forall e :: e in es ==> e.Expired(t, grace)
  {
    if es == [] {
      t := MaxOf(1, start);
    } else {
      t := AllExpire(es[1..], start, grace);
      t := MaxOf(t, es[0].DeprecationTime() + grace);
      assert es == [es[0]] + es[1..];
    }
  }

  lemma {:induction false} KeyIdsFromEntries(es: seq<KeyEntry>, active: string, primary: bool)
    ensures forall id :: id in KeyIds(es, active, primary) ==> exists e :: e in es && e.version == id.kid
  {
    if es == [] {
    } else {
      KeyIdsFromEntries(es[1..], active, primary);
      assert es == [es[0]] + es[1..];
    }
  }

  lemma VerifiedNumbers(k: Keys, now: int, grace: int)
    ensures forall id :: id in VerificationKeys(k, now, grace) ==> VersionNumber(id.kid) <= MaxVersion(k.entries)
  {
    var kept := Kept(k.entries, k.active, now, grace);
    KeptMembers(k.entries, k.active, now, grace);
    MaxVersionIsBound(k.entries);
    KeyIdsFromEntries(kept, k.active, true);
    KeyIdsFromEntries(kept, k.active, false);
  }

  /** A cleanup that leaves the primary alone forgets any number above it. */
  lemma CleanupForgetsTop(k: Keys, t: int, grace: int)
    requires !NothingAbovePrimary(k) && forall e :: e in k.entries ==> e.Expired(t, grace)
    ensures MaxVersion(Deprecate(k, t, grace).entries) < MaxVersion(k.entries)
  {
    var kept := Kept(k.entries, k.active, t, grace);
    KeptMembers(k.entries, k.active, t, grace);
    MaxVersionIsBound(k.entries);
    MaxVersionAttained(kept);
    var e :| e in k.entries && VersionNumber(e.version) > 0 &&
             !(k.HasActive() && VersionNumber(e.version) <= VersionNumber(k.active));
    assert forall p :: p in kept ==> p in k.entries && p.version == k.active;
  }

  lemma RunTwo(s: System, a: Op, b: Op, grace: int)
    ensures Run(s, [a, b], grace) == Step(Step(s, a, grace), b, grace)
  {
    assert [a, b][1..] == [b] && [b][1..] == [];
    assert Run(Step(s, a, grace), [b], grace) == Run(Step(Step(s, a, grace), b, grace), [], grace);
  }

  /** The rotation after such a cleanup issues a number that has been used before. */
  lemma ForgottenInStore(k: Keys, t: int, newKey: string, grace: int)
    requires !NothingAbovePrimary(k) && forall e :: e in k.entries ==> e.Expired(t, grace)
    ensures var k' := Rotate(Deprecate(k, t, grace), newKey, t, grace);
            && VersionNumber(k'.active) <= MaxVersion(k.entries)
            && forall id :: id in VerificationKeys(k', t, grace) ==> VersionNumber(id.kid) <= MaxVersion(k.entries)
  {
    var k1 := Deprecate(k, t, grace);
    CleanupForgetsTop(k, t, grace);
    PromoteRaisesMax(k1, newKey, t);
    DeprecateKeepsMax(Promote(k1, newKey, t), t, grace);
    VersionRoundTrip(MaxVersion(k1.entries) + 1);
    VerifiedNumbers(Rotate(k1, newKey, t, grace), t, grace);
  }

  /** Without cleanup it issues a higher one. */
  lemma RememberedInHistory(k: Keys, t: int, newKey: string, grace: int)
    ensures var h := HistoryOf(k.entries, k.active);
            && KeyId(newKey, NextKid(h)) in Expected(Recall(h, [VerifyOp(t), RotateOp(newKey, t)]), t, grace)
            && VersionNumber(NextKid(h)) == MaxVersion(k.entries) + 1
  {
    var h, rotate := HistoryOf(k.entries, k.active), RotateOp(newKey, t);
    var h' := Remember(h, rotate);
    assert [VerifyOp(t), rotate][1..] == [rotate] && [rotate][1..] == [];
    assert Recall(h, [VerifyOp(t), rotate]) == Recall(h, [rotate]) == Recall(h', []) == h';
    MaxKidOfHistory(k.entries, k.active);
    VersionRoundTrip(MaxKid(h) + 1);
    ExpectedContains(h', t, grace, |h'| - 1);
  }

  lemma ForgottenAt(k: Keys, t: int, newKey: string, grace: int)
    requires !NothingAbovePrimary(k) && forall e :: e in k.entries ==> e.Expired(t, grace)
    ensures var ops := [VerifyOp(t), RotateOp(newKey, t)];
            VerificationKeys(Run(StartOf(k), ops, grace).store, t, grace) !=
            Expected(Recall(HistoryOf(k.entries, k.active), ops), t, grace)
  {
    var verify, rotate := VerifyOp(t), RotateOp(newKey, t);
    RunTwo(StartOf(k), verify, rotate, grace);
    ForgottenInStore(k, t, newKey, grace);
    RememberedInHistory(k, t, newKey, grace);
    var k' := Rotate(Deprecate(k, t, grace), newKey, t, grace);
    assert Run(StartOf(k), [verify, rotate], grace).store == k';
    assert KeyId(newKey, NextKid(HistoryOf(k.entries, k.active))) !in VerificationKeys(k', t, grace);
  }

  lemma ForgottenTop(k: Keys, newKey: string, start: int, grace: int) returns (ops: seq<Op>, now: int)
    requires !NothingAbovePrimary(k)
    ensures !Unobserved(k, ops, start, now, grace)
  {
    now := AllExpire(k.entries, start, grace);
    ops := [VerifyOp(now), RotateOp(newKey, now)];
    ForgottenAt(k, now, newKey, grace);
  }

  /** Exactly when lazy cleanup is unobservable, ids included: no number in the store is above
      the primary's. */
  lemma CleanupIsUnobservable(k: Keys, start: int, grace: int)
    ensures NothingAbovePrimary(k) <==> forall ops, now :: Unobserved(k, ops, start, now, grace)
  {
    if NothingAbovePrimary(k) {
      forall ops, now
        ensures Unobserved(k, ops, start, now, grace)
      {
        if Clocked(ops, start) && Latest(ops, start) <= now {
          MaxKidOfHistory(k.entries, k.active);
          RunRecalls(StartOf(k), ops, grace);
          VerificationMatchesLog(k, ops, start, now, grace);
        }
      }
    } else {
      var ops, now := ForgottenTop(k, "key", start, grace);
    }
  }

  /** From the first rotation on, it always is. */
  lemma UnobservableAfterRotation(k: Keys, newKey: string, at: int, ops: seq<Op>, start: int, now: int, grace: int)
    ensures Unobserved(Rotate(k, newKey, at, grace), ops, start, now, grace)
  {
    var k' := Rotate(k, newKey, at, grace);
    PromoteRaisesMax(k, newKey, at);
    DeprecateKeepsMax(Promote(k, newKey, at), at, grace);
    CleanupIsUnobservable(k', start, grace);
  }

  /** The store of `ReissuedKid`: v1 is primary, v2 was loaded beside it. */
  function LoadedBeside(loaded: int): Keys {
    Keys([KeyEntry("v1", "a", loaded, 0), KeyEntry("v2", "b", loaded, 0)], "v1")
  }

  lemma SmallVersions()
    ensures "v" + Decimal(2) == "v2" && "v" + Decimal(3) == "v3"
    ensures VersionNumber("v1") == 1 && VersionNumber("v2") == 2
  {
    VersionRoundTrip(1);
    VersionRoundTrip(2);
    assert "v" + Decimal(1) == "v1";
  }

  lemma MaxOfOneAndTwo(a: KeyEntry, b: KeyEntry)
    ensures MaxVersion([a]) == MaxOf(VersionNumber(a.version), 0)
    ensures MaxVersion([a, b]) == MaxOf(VersionNumber(a.version), MaxOf(VersionNumber(b.version), 0))
  {
    assert [a][1..] == [] && [b][1..] == [] && [a, b][1..] == [b];
    assert MaxVersion([b]) == MaxOf(VersionNumber(b.version), MaxVersion([]));
  }

  lemma LoadedCleanup(loaded: int, now: int, grace: int)
    requires now >= loaded + grace
    ensures Kept(LoadedBeside(loaded).entries, "v1", now, grace) == LoadedBeside(loaded).entries[..1]
  {
    var es := LoadedBeside(loaded).entries;
    assert es[1..][1..] == [];
    assert Kept(es[1..], "v1", now, grace) == [];
  }

  /** Before it, an expired key above the primary is enough: rotating at once issues v3, while
      verifying first makes the rotation issue v2 a second time, for another key. */
  lemma ReissuedKid(loaded: int, now: int, grace: int)
    requires now >= loaded + grace
    ensures var s, rotate := StartOf(LoadedBeside(loaded)), RotateOp("c", now);
            && Step(s, rotate, grace).store.active == "v3"
            && Run(s, [VerifyOp(now), rotate], grace).store.active == "v2"
            && !DistinctKids(Run(s, [VerifyOp(now), rotate], grace).history)
  {
    var s := StartOf(LoadedBeside(loaded));
    var es := s.store.entries;
    SmallVersions();
    MaxOfOneAndTwo(es[0], es[1]);
    LoadedCleanup(loaded, now, grace);
    assert es[..1] == [es[0]];
    RunTwo(s, VerifyOp(now), RotateOp("c", now), grace);
    HistoryKids(es, "v1");
    RetireAt(s.history, now, 1);
    var log := Run(s, [VerifyOp(now), RotateOp("c", now)], grace).history;
    assert log == Retire(s.history, now) + [Issued("v2", "c", None)];
    assert log[1].kid == log[2].kid;
  }
}
