/** The patch catalog (catalog_manager.py): version comparison, entry
    validation and the official/user entry lists. */
module Catalog {
  import opened Common
  import opened PyStr

  // ----- version parsing -----

  predicate IsAsciiDigit(c: char) {
    '0' <= c <= '9'
  }

  /** The Latin-1 superscripts one, two and three: `str.isdigit()` accepts them
      but `int()` rejects them. */
  predicate IsSuperscriptDigit(c: char) {
    c == 0xB9 as char || c == 0xB2 as char || c == 0xB3 as char
  }

  /** `str.isdigit()` restricted to the ASCII digits and the superscripts ¹, ²
      and ³; the other Unicode digits are not modelled. */
  predicate IsDigitChar(c: char) {
    IsAsciiDigit(c) || IsSuperscriptDigit(c)
  }

  /** The leading run of digit characters of a dot-part (the inner loop of
      `parse_version`). */
  function LeadingDigits(part: string): (r: string)
    ensures |r| <= |part| && r == part[..|r|]
    ensures forall i :: 0 <= i < |r| ==> IsDigitChar(r[i])
    ensures |r| < |part| ==> !IsDigitChar(part[|r|])
  {
    if part != [] && IsDigitChar(part[0]) then [part[0]] + LeadingDigits(part[1..]) else []
  }

  /** Value of a run of ASCII digits, most significant first. */
  function DigitsValue(s: string): nat
    requires forall i :: 0 <= i < |s| ==> IsAsciiDigit(s[i])
    decreases |s|
  {
    if s == [] then 0
    else
      assert IsAsciiDigit(s[|s| - 1]);
      DigitsValue(s[..|s| - 1]) * 10 + (s[|s| - 1] as int - '0' as int)
  }

  /** `int(numeric)` over ASCII digits: None where Python raises (a superscript
      digit). */
  function ToInt(s: string): (r: Option<nat>)
    ensures r.Some? <==> forall i :: 0 <= i < |s| ==> IsAsciiDigit(s[i])
  {
    if forall i :: 0 <= i < |s| ==> IsAsciiDigit(s[i]) then Some(DigitsValue(s)) else None
  }

  /** The numbers of the dot-parts; a part without a leading digit is dropped;
      None where `int()` raises. */
  function ParseParts(parts: seq<string>): Option<seq<nat>> {
    if parts == [] then Some([])
    else
      var numeric := LeadingDigits(parts[0]);
      match ParseParts(parts[1..])
      case None => None
      case Some(rest) =>
        if numeric == [] then Some(rest)
        else match ToInt(numeric)
          case None => None
          case Some(n) => Some([n] + rest)
  }

  /** `parse_version`: leading 'v's, then leading 'V's, removed; split on dots. */
  function ParseVersion(v: string): Option<seq<nat>> {
    ParseParts(Split(LStripChar(LStripChar(v, 'v'), 'V'), '.'))
  }

  /** `t + (0,) * (n - len(t))`. */
  function Pad(t: seq<nat>, n: nat): (r: seq<nat>)
    ensures |r| == Max(n, |t|)
    ensures r[..|t|] == t && forall i :: |t| <= i < |r| ==> r[i] == 0
  {
    if |t| >= n then t else t + seq(n - |t|, _ => 0)
  }

  /** Python's tuple ordering on tuples of equal length: -1, 0 or 1. */
  function CompareTuples(a: seq<nat>, b: seq<nat>): (r: int)
    requires |a| == |b|
    ensures r == -1 || r == 0 || r == 1
    ensures r == 0 <==> a == b
  {
    if a == [] then 0
    else if a[0] < b[0] then -1
    else if a[0] > b[0] then 1
    else
      var r := CompareTuples(a[1..], b[1..]);
      assert a == [a[0]] + a[1..] && b == [b[0]] + b[1..];
      r
  }

  /** `compare_versions`: -1 if installed < catalog, 1 if greater, 0 if equal
      after zero padding, and 0 whenever parsing raises. */
  function CompareVersions(installed: string, catalog: string): (r: int)
    ensures r == -1 || r == 0 || r == 1
  {
    match (ParseVersion(installed), ParseVersion(catalog))
    case (Some(a), Some(b)) =>
      var n := Max(|a|, |b|);
      CompareTuples(Pad(a, n), Pad(b, n))
    case _ => 0
  }

  // ----- properties of the comparison -----

  lemma {:induction false} CompareTuplesAntisymmetric(a: seq<nat>, b: seq<nat>)
    requires |a| == |b|
    ensures CompareTuples(a, b) == -CompareTuples(b, a)
    decreases |a|
  {
    if a != [] && a[0] == b[0] {
      CompareTuplesAntisymmetric(a[1..], b[1..]);
    }
  }

  lemma {:induction false} CompareTuplesTransitive(a: seq<nat>, b: seq<nat>, c: seq<nat>)
    requires |a| == |b| == |c|
    requires CompareTuples(a, b) <= 0 && CompareTuples(b, c) <= 0
    ensures CompareTuples(a, c) <= 0
    decreases |a|
  {
    if a != [] && a[0] == b[0] == c[0] {
      CompareTuplesTransitive(a[1..], b[1..], c[1..]);
    }
  }

  /** Trailing zeros do not change the comparison. */
  lemma {:induction false} CompareTuplesPadded(a: seq<nat>, b: seq<nat>, n: nat, m: nat)
    requires |a| <= n && |b| <= n && |a| <= m && |b| <= m
    ensures CompareTuples(Pad(a, n), Pad(b, n)) == CompareTuples(Pad(a, m), Pad(b, m))
    decreases |a| + |b|
  {
    var pa, pb, qa, qb := Pad(a, n), Pad(b, n), Pad(a, m), Pad(b, m);
    if a == [] && b == [] {
      assert pa == pb && qa == qb;
    } else {
      PadTail(a, n);
      PadTail(b, n);
      PadTail(a, m);
      PadTail(b, m);
      if pa[0] == pb[0] {
        var a', b' := if a == [] then [] else a[1..], if b == [] then [] else b[1..];
        CompareTuplesPadded(a', b', n - 1, m - 1);
        CompareTuplesTail(pa, pb);
        CompareTuplesTail(qa, qb);
      }
    }
  }

  /** Equal first elements leave the comparison to the rest. */
  lemma CompareTuplesTail(a: seq<nat>, b: seq<nat>)
    requires |a| == |b| > 0 && a[0] == b[0]
    ensures CompareTuples(a, b) == CompareTuples(a[1..], b[1..])
  {
  }

  lemma PadTail(t: seq<nat>, n: nat)
    requires |t| <= n && n > 0
    ensures Pad(t, n)[0] == (if t == [] then 0 else t[0])
    ensures Pad(t, n)[1..] == Pad(if t == [] then [] else t[1..], n - 1)
  {
  }

  /** Every version equals itself. */
  lemma CompareReflexive(v: string)
    ensures CompareVersions(v, v) == 0
  {
  }

  /** Swapping the arguments negates the result. */
  lemma CompareAntisymmetric(a: string, b: string)
    ensures CompareVersions(a, b) == -CompareVersions(b, a)
  {
    if ParseVersion(a).Some? && ParseVersion(b).Some? {
      var pa, pb := ParseVersion(a).value, ParseVersion(b).value;
      var n := Max(|pa|, |pb|);
      assert n == Max(|pb|, |pa|);
      CompareTuplesAntisymmetric(Pad(pa, n), Pad(pb, n));
    }
  }

  /** On versions that parse, "not newer" is transitive. (A version that makes
      parsing raise compares equal to everything, so the ordering as a whole
      is not transitive.) */
  lemma CompareTransitive(a: string, b: string, c: string)
    requires ParseVersion(a).Some? && ParseVersion(b).Some? && ParseVersion(c).Some?
    requires CompareVersions(a, b) <= 0 && CompareVersions(b, c) <= 0
    ensures CompareVersions(a, c) <= 0
  {
    var pa, pb, pc := ParseVersion(a).value, ParseVersion(b).value, ParseVersion(c).value;
    var n := Max(Max(|pa|, |pb|), |pc|);
    CompareTuplesPadded(pa, pb, Max(|pa|, |pb|), n);
    CompareTuplesPadded(pb, pc, Max(|pb|, |pc|), n);
    CompareTuplesPadded(pa, pc, Max(|pa|, |pc|), n);
    CompareTuplesTransitive(Pad(pa, n), Pad(pb, n), Pad(pc, n));
  }

  /** A version whose parts are another's followed by zeros compares equal to it. */
  lemma ZeroExtensionEqual(a: string, b: string, k: nat)
    requires ParseVersion(a).Some? && ParseVersion(b).Some?
    requires ParseVersion(b).value == ParseVersion(a).value + seq(k, _ => 0)
    ensures CompareVersions(a, b) == 0
  {
    var pa, pb := ParseVersion(a).value, ParseVersion(b).value;
    var n := Max(|pa|, |pb|);
    assert Pad(pa, n) == pb;
  }

  /** Any version that makes parsing raise compares equal. */
  lemma ParseFailureIsEqual(a: string, b: string)
    requires ParseVersion(a).None? || ParseVersion(b).None?
    ensures CompareVersions(a, b) == 0
  {
  }

  /** A leading lower-case 'v' never matters. */
  lemma LeadingVIgnored(s: string)
    ensures ParseVersion("v" + s) == ParseVersion(s)
  {
    assert ("v" + s)[1..] == s;
  }

  /** "1.2" and "1.2.0" are the same version. */
  lemma OneTwoEqualsOneTwoZero()
    ensures CompareVersions("1.2", "1.2.0") == 0
  {
    ParseOneTwo();
    assert [1, 2, 0] == [1, 2] + seq(1, _ => 0);
    ZeroExtensionEqual("1.2", "1.2.0", 1);
  }

  lemma ParseOneTwo()
    ensures ParseVersion("1.2") == Some([1, 2]) && ParseVersion("1.2.0") == Some([1, 2, 0])
  {
    SplitOneTwo();
    assert LStripChar("1.2", 'v') == "1.2" && LStripChar("1.2", 'V') == "1.2";
    assert LStripChar("1.2.0", 'v') == "1.2.0" && LStripChar("1.2.0", 'V') == "1.2.0";
    PartsOneTwo();
  }

  /** The parts "1", "2" and "0" parse to their numbers. */
  lemma PartsOneTwo()
    ensures ParseParts(["1", "2"]) == Some([1, 2]) && ParseParts(["1", "2", "0"]) == Some([1, 2, 0])
  {
    DigitPart('0');
    DigitPart('1');
    DigitPart('2');
    assert ParseParts(["0"]) == Some([0]) by { assert ["0"][1..] == []; assert [0] + [] == [0]; }
    assert ParseParts(["2"]) == Some([2]) by { assert ["2"][1..] == []; assert [2] + [] == [2]; }
    assert ParseParts(["2", "0"]) == Some([2, 0]) by { assert ["2", "0"][1..] == ["0"]; assert [2] + [0] == [2, 0]; }
    assert ParseParts(["1", "2"]) == Some([1, 2]) by { assert ["1", "2"][1..] == ["2"]; assert [1] + [2] == [1, 2]; }
    assert ParseParts(["1", "2", "0"]) == Some([1, 2, 0]) by { assert ["1", "2", "0"][1..] == ["2", "0"]; assert [1] + [2, 0] == [1, 2, 0]; }
  }

  /** A one-digit part is its own number. */
  lemma DigitPart(d: char)
    requires IsAsciiDigit(d)
    ensures LeadingDigits([d]) == [d] && ToInt([d]) == Some(d as int - '0' as int)
  {
    assert [d][1..] == [];
    assert IsDigitChar(d);
    assert [d][..0] == [];
    assert DigitsValue([d]) == d as int - '0' as int;
  }

  lemma SplitOneTwo()
    ensures Split("1.2", '.') == ["1", "2"] && Split("1.2.0", '.') == ["1", "2", "0"]
  {
    assert Split("", '.') == [[]];
    assert Split("0", '.') == ["0"] by { assert "0"[1..] == []; assert Split("", '.')[1..] == []; assert ['0'] + [] == "0"; }
    assert Split(".0", '.') == ["", "0"] by { assert ".0"[1..] == "0"; }
    assert Split("2", '.') == ["2"] by { assert "2"[1..] == []; assert Split("", '.')[1..] == []; assert ['2'] + [] == "2"; }
    assert Split(".2", '.') == ["", "2"] by { assert ".2"[1..] == "2"; }
    assert Split("2.0", '.') == ["2", "0"] by { assert "2.0"[1..] == ".0"; }
    assert Split(".2.0", '.') == ["", "2", "0"] by { assert ".2.0"[1..] == "2.0"; }
    assert Split("1.2", '.') == ["1", "2"] by {
      assert "1.2"[1..] == ".2";
      assert ["", "2"][1..] == ["2"];
      assert ['1'] + "" == "1";
    }
    assert Split("1.2.0", '.') == ["1", "2", "0"] by { assert "1.2.0"[1..] == ".2.0"; }
  }

  // ----- entries -----

  /** A catalog entry: its fields by name. */
  type Entry = map<string, string>

  const RequiredFields: seq<string> := ["name", "version", "description", "author"]

  /** `validate_entry`: (valid, message). */
  function ValidateEntry(e: Entry): (r: (bool, string))
    ensures r.0 <==> (forall f :: f in RequiredFields ==> f in e) && "stage" in e && "patch" in e
    ensures !r.0 ==> r.1 != []
    ensures r.0 ==> r.1 == []
  {
    FirstMissing(e, RequiredFields)
  }

  /** The first field of `fields` missing from `e` is named in the message. */
  function FirstMissing(e: Entry, fields: seq<string>): (r: (bool, string))
    ensures r.0 <==> (forall f :: f in fields ==> f in e) && "stage" in e && "patch" in e
    ensures !r.0 ==> r.1 != []
    ensures r.0 ==> r.1 == []
    ensures forall i :: 0 <= i < |fields| && fields[i] !in e && (forall j :: 0 <= j < i ==> fields[j] in e)
              ==> r == (false, "Missing required field: " + fields[i])
  {
    if fields == [] then
      if "stage" !in e || "patch" !in e then (false, "Missing stage or patch URL (required for Method 1)")
      else (true, [])
    else if fields[0] !in e then (false, "Missing required field: " + fields[0])
    else
      var r := FirstMissing(e, fields[1..]);
      assert forall f :: f in fields ==> f == fields[0] || f in fields[1..];
      assert forall i :: 1 <= i < |fields| ==> fields[i] == fields[1..][i - 1];
      r
  }

  /** `entry.get('name') == name`. */
  predicate Named(e: Entry, name: string) {
    "name" in e && e["name"] == name
  }

  /** The catalog: official entries and user entries. */
  class CatalogManager {
    var catalogEntries: seq<Entry>
    var userEntries: seq<Entry>

    constructor ()
      ensures catalogEntries == [] && userEntries == []
    {
      catalogEntries := [];
      userEntries := [];
    }

    /** `get_all_entries`: official entries, then user entries. */
    function AllEntries(): (r: seq<Entry>)
      reads this
      ensures |r| == |catalogEntries| + |userEntries|
      ensures r[..|catalogEntries|] == catalogEntries && r[|catalogEntries|..] == userEntries
    {
      catalogEntries + userEntries
    }

    /** `get_entry_by_name`: the first entry with that name. */
    method GetEntryByName(name: string) returns (r: Option<Entry>)
      ensures r.None? <==> forall i :: 0 <= i < |AllEntries()| ==> !Named(AllEntries()[i], name)
      ensures r.Some? ==> exists i :: 0 <= i < |AllEntries()| && AllEntries()[i] == r.value && Named(r.value, name) &&
                            forall j :: 0 <= j < i ==> !Named(AllEntries()[j], name)
    {
      var all := AllEntries();
      var i := 0;
      while i < |all|
        invariant 0 <= i <= |all|
        invariant forall j :: 0 <= j < i ==> !Named(all[j], name)
      {
        if Named(all[i], name) {
          return Some(all[i]);
        }
        i := i + 1;
      }
      return None;
    }

    /** `add_user_entry`: an invalid entry changes nothing; a valid one is
        appended, and the result also reports whether saving succeeded. */
    method AddUserEntry(entry: Entry, saved: bool) returns (ok: bool)
      modifies this
      ensures catalogEntries == old(catalogEntries)
      ensures userEntries == if ValidateEntry(entry).0 then old(userEntries) + [entry] else old(userEntries)
      ensures ok <==> ValidateEntry(entry).0 && saved
    {
      var (valid, _) := ValidateEntry(entry);
      if !valid {
        return false;
      }
      userEntries := userEntries + [entry];
      ok := saved;
    }
  }
}
