/** The raw sprite-data editor (raw_editor.py): a line edit that shows hex
    text in groups of four characters and keeps the last valid text, and the
    extended-format editor that re-assembles a sprite's original bytes from
    its events text and its stored settings. */
module RawEditor {
  import opened Common
  import opened PyStr
  import RawData

  // ----- hex text -----

  function HexDigitValue(c: char): (v: nat)
    requires IsHexDigit(c)
    ensures v < 16
  {
    if '0' <= c <= '9' then c as int - '0' as int
    else if 'a' <= c <= 'f' then c as int - 'a' as int + 10
    else c as int - 'A' as int + 10
  }

  function HexDigitChar(v: nat): (c: char)
    requires v < 16
    ensures IsHexDigit(c) && HexDigitValue(c) == v
  {
    if v < 10 then ('0' as int + v) as char else ('a' as int + v - 10) as char
  }

  /** `bytes.hex()`: two lower-case hex digits per byte. */
  function Hex(b: seq<Byte>): (s: string)
    ensures |s| == 2 * |b|
    ensures forall i :: 0 <= i < |s| ==> IsHexDigit(s[i])
  {
    if b == [] then []
    else [HexDigitChar(b[0] / 16), HexDigitChar(b[0] % 16)] + Hex(b[1..])
  }

  /** `bytes.fromhex(s)`: pairs of hex digits, ASCII whitespace allowed between
      pairs; None where Python raises ValueError. */
  function FromHex(s: string): Option<seq<Byte>>
    decreases |s|
  {
    if s == [] then Some([])
    else if IsAsciiSpace(s[0]) then FromHex(s[1..])
    else if |s| >= 2 && IsHexDigit(s[0]) && IsHexDigit(s[1]) then
      match FromHex(s[2..])
      case None => None
      case Some(rest) => Some([HexDigitValue(s[0]) * 16 + HexDigitValue(s[1])] + rest)
    else None
  }

  /** Parsing the hex text of some bytes gives those bytes back. */
  lemma {:induction false} FromHexHex(b: seq<Byte>)
    ensures FromHex(Hex(b)) == Some(b)
  {
    if b != [] {
      var s := Hex(b);
      assert s[2..] == Hex(b[1..]);
      FromHexHex(b[1..]);
      assert HexDigitValue(s[0]) * 16 + HexDigitValue(s[1]) == b[0];
      assert b == [b[0]] + b[1..];
    }
  }

  predicate AllHex(s: string) {
    forall i :: 0 <= i < |s| ==> IsHexDigit(s[i])
  }

  predicate NoAsciiSpace(s: string) {
    forall i :: 0 <= i < |s| ==> !IsAsciiSpace(s[i])
  }

  /** Without whitespace, `fromhex` succeeds exactly on an even number of hex digits. */
  lemma {:induction false} FromHexPlain(s: string)
    requires NoAsciiSpace(s)
    ensures FromHex(s).Some? <==> |s| % 2 == 0 && AllHex(s)
    decreases |s|
  {
    if |s| >= 2 {
      DropPair(s);
      FromHexPlain(s[2..]);
    }
  }

  /** Dropping a leading pair keeps a text free of whitespace, and the text is
      all hex digits exactly when the pair and the rest are. */
  lemma DropPair(s: string)
    requires |s| >= 2
    ensures NoAsciiSpace(s) ==> NoAsciiSpace(s[2..])
    ensures AllHex(s) <==> IsHexDigit(s[0]) && IsHexDigit(s[1]) && AllHex(s[2..])
  {
    if IsHexDigit(s[0]) && IsHexDigit(s[1]) && AllHex(s[2..]) {
      forall i | 0 <= i < |s| ensures IsHexDigit(s[i]) {
        if i >= 2 { assert s[i] == s[2..][i - 2]; }
      }
    }
  }

  /** Two texts that agree on a leading pair of hex digits parse alike when
      their remainders do. */
  lemma FromHexPairCongruence(a: string, b: string)
    requires |a| >= 2 && |b| >= 2 && a[0] == b[0] && a[1] == b[1]
    requires IsHexDigit(a[0]) && IsHexDigit(a[1])
    requires FromHex(a[2..]) == FromHex(b[2..])
    ensures FromHex(a) == FromHex(b)
  {
  }

  /** Removing the spaces between byte pairs keeps a hex text parseable. */
  lemma {:induction false} FromHexWithoutSpaces(s: string)
    requires FromHex(s).Some?
    ensures FromHex(RemoveChar(s, ' ')) == FromHex(s)
    decreases |s|
  {
    if s != [] {
      var t := RemoveChar(s, ' ');
      if IsAsciiSpace(s[0]) {
        FromHexWithoutSpaces(s[1..]);
        if s[0] != ' ' {
          assert t == [s[0]] + RemoveChar(s[1..], ' ');
          assert t[1..] == RemoveChar(s[1..], ' ');
        }
      } else {
        assert IsHexDigit(s[0]) && IsHexDigit(s[1]);
        FromHexWithoutSpaces(s[2..]);
        assert t == [s[0]] + RemoveChar(s[1..], ' ');
        assert RemoveChar(s[1..], ' ') == [s[1]] + RemoveChar(s[1..][1..], ' ');
        assert s[1..][1..] == s[2..];
        assert t[2..] == RemoveChar(s[2..], ' ');
        FromHexPairCongruence(t, s);
      }
    }
  }

  // ----- FormattedLineEdit -----

  /** `' '.join(text[i:i + 4] for i in range(0, len(text), 4))`. */
  function Group4(t: string): string
    decreases |t|
  {
    if |t| <= 4 then t else t[..4] + " " + Group4(t[4..])
  }

  /** The text shown after `setText`: the grouped text, stripped. */
  function Display(t: string): string {
    Strip(Group4(t))
  }

  /** What `setText` keeps of its argument: '0x' and spaces removed. */
  function Clean(s: string): string {
    RemoveChar(RemoveAll(s, "0x"), ' ')
  }

  /** For text without spaces, the grouping puts a single space after every
      fourth character and nowhere else, and removing spaces undoes it. */
  lemma {:induction false} GroupLayout(t: string)
    requires ' ' !in t
    ensures RemoveChar(Group4(t), ' ') == t
    ensures |t| > 0 ==> |Group4(t)| == |t| + (|t| - 1) / 4
    ensures forall i :: 0 <= i < |Group4(t)| ==> (Group4(t)[i] == ' ' <==> i % 5 == 4)
    ensures forall i :: 0 <= i < |Group4(t)| && i % 5 != 4 ==> i - i / 5 < |t| && Group4(t)[i] == t[i - i / 5]
    decreases |t|
  {
    if |t| > 4 {
      var rest := t[4..];
      assert ' ' !in rest by {
        forall k | 0 <= k < |rest| ensures rest[k] != ' ' { assert rest[k] == t[k + 4]; }
      }
      GroupLayout(rest);
      var g := Group4(t);
      assert g == t[..4] + " " + Group4(rest);
      assert RemoveChar(g, ' ') == t by {
        RemoveCharConcat(t[..4] + " ", Group4(rest), ' ');
        RemoveCharConcat(t[..4], " ", ' ');
        RemoveCharAbsent(t[..4], ' ');
        assert t == t[..4] + rest;
      }
      forall i | 0 <= i < |g|
        ensures (g[i] == ' ' <==> i % 5 == 4)
        ensures i % 5 != 4 ==> i - i / 5 < |t| && g[i] == t[i - i / 5]
      {
        GroupLayoutAt(t, i);
      }
    } else {
      RemoveCharAbsent(t, ' ');
    }
  }

  /** One position of the grouping of a text longer than four, from the
      layout of the grouping of its tail. */
  lemma GroupLayoutAt(t: string, i: int)
    requires |t| > 4 && ' ' !in t && 0 <= i < |Group4(t)|
    requires forall j :: 0 <= j < |Group4(t[4..])| ==> (Group4(t[4..])[j] == ' ' <==> j % 5 == 4)
    requires forall j :: 0 <= j < |Group4(t[4..])| && j % 5 != 4 ==>
      j - j / 5 < |t[4..]| && Group4(t[4..])[j] == t[4..][j - j / 5]
    ensures Group4(t)[i] == ' ' <==> i % 5 == 4
    ensures i % 5 != 4 ==> i - i / 5 < |t| && Group4(t)[i] == t[i - i / 5]
  {
    var rest := t[4..];
    var g := Group4(t);
    assert g == t[..4] + " " + Group4(rest);
    if i < 4 {
      assert g[i] == t[i];
      assert t[i] in t;
      BelowFive(i);
    } else if i == 4 {
      BelowFive(i);
    } else {
      assert g[i] == Group4(rest)[i - 5];
      GroupLayoutTail(t, i);
    }
  }

  lemma GroupLayoutTail(t: string, i: int)
    requires |t| > 4 && 5 <= i < |Group4(t)| && Group4(t)[i] == Group4(t[4..])[i - 5]
    requires Group4(t[4..])[i - 5] == ' ' <==> (i - 5) % 5 == 4
    requires (i - 5) % 5 != 4 ==>
      (i - 5) - (i - 5) / 5 < |t[4..]| && Group4(t[4..])[i - 5] == t[4..][(i - 5) - (i - 5) / 5]
    ensures Group4(t)[i] == ' ' <==> i % 5 == 4
    ensures i % 5 != 4 ==> i - i / 5 < |t| && Group4(t)[i] == t[i - i / 5]
  {
    ShiftByFive(i);
  }

  lemma BelowFive(i: int)
    requires 0 <= i < 5
    ensures i % 5 == i && i / 5 == 0
  {
  }

  lemma ShiftByFive(i: int)
    requires i >= 5
    ensures (i - 5) % 5 == i % 5 && (i - 5) / 5 == i / 5 - 1
    ensures i - i / 5 == (i - 5) - (i - 5) / 5 + 4
  {
  }

  /** The grouping starts with the text's first character and ends with its last. */
  lemma {:induction false} GroupEnds(t: string)
    requires |t| > 0
    ensures |Group4(t)| > 0 && Group4(t)[0] == t[0] && Group4(t)[|Group4(t)| - 1] == t[|t| - 1]
    decreases |t|
  {
    if |t| > 4 {
      GroupEnds(t[4..]);
    }
  }

  lemma {:induction false} RemoveCharAbsent(s: string, c: char)
    requires c !in s
    ensures RemoveChar(s, c) == s
    decreases |s|
  {
    if s != [] {
      assert c !in s[1..];
      RemoveCharAbsent(s[1..], c);
    }
  }

  lemma {:induction false} RemoveCharConcat(a: string, b: string, c: char)
    ensures RemoveChar(a + b, c) == RemoveChar(a, c) + RemoveChar(b, c)
    decreases |a|
  {
    if a != [] {
      assert (a + b)[1..] == a[1..] + b;
      RemoveCharConcat(a[1..], b, c);
    } else {
      assert a + b == b;
    }
  }

  /** Text holding no whitespace is shown grouped and unstripped. */
  lemma DisplayOfPlain(t: string)
    requires forall i :: 0 <= i < |t| ==> !IsSpace(t[i])
    ensures Display(t) == Group4(t)
  {
    if |t| > 0 {
      var g := Group4(t);
      GroupEnds(t);
      assert !IsSpace(g[0]) && !IsSpace(g[|g| - 1]);
      StripKeeps(g);
    }
  }

  /** After `setText(s)`, `text()` gives back `s` without '0x' and without spaces,
      provided the cleaned text holds no other whitespace (which `strip()`
      would remove at the ends). */
  lemma SetTextThenText(s: string)
    requires forall i :: 0 <= i < |Clean(s)| ==> !IsSpace(Clean(s)[i])
    ensures RemoveChar(Display(Clean(s)), ' ') == Clean(s)
  {
    var t := Clean(s);
    DisplayOfPlain(t);
    GroupLayout(t);
  }

  /** `_is_raw_data_valid`: exactly `size` characters once spaces are removed,
      and `bytes.fromhex` accepts the text. */
  predicate RawValid(size: int, text: string) {
    |RemoveChar(text, ' ')| == size && FromHex(text).Some?
  }

  /** The initial format text: `(('x' * min(size, 4) + ' ') * (size // 4) + 'x' * (size % 4)).strip()`. */
  function TextFormat(size: nat): string {
    Strip(RepStr(Rep('x', Min(size, 4)) + " ", size / 4) + Rep('x', size % 4))
  }

  /** The initial format is `size` x's grouped by four. */
  lemma TextFormatIsGrouped(size: nat)
    ensures TextFormat(size) == Group4(Rep('x', size))
  {
    if size < 4 {
      TextFormatShort(size);
    } else {
      TextFormatLong(size);
    }
  }

  lemma TextFormatShort(size: nat)
    requires size < 4
    ensures TextFormat(size) == Group4(Rep('x', size))
  {
    var body := RepStr(Rep('x', size) + " ", 0) + Rep('x', size);
    assert body == Rep('x', size);
    if size > 0 {
      GroupEnds(Rep('x', size));
      StripKeeps(Rep('x', size));
    }
  }

  lemma TextFormatLong(size: nat)
    requires size >= 4
    ensures TextFormat(size) == Group4(Rep('x', size))
  {
    var g := Group4(Rep('x', size));
    TextFormatLongBody(size);
    GroupedText(size);
    GroupEnds(Rep('x', size));
    if size % 4 > 0 {
      StripKeeps(g);
    } else {
      StripTrailingSpace(g);
    }
  }

  /** `RepStr("xxxx ", size / 4) + x^(size % 4)` is the grouped run of x's, with
      one extra trailing space when `size` is a multiple of four. */
  lemma GroupedText(size: nat)
    requires size >= 4
    ensures size % 4 > 0 ==> RepStr("xxxx ", size / 4) + Rep('x', size % 4) == Group4(Rep('x', size))
    ensures size % 4 == 0 ==> RepStr("xxxx ", size / 4) + Rep('x', size % 4) == Group4(Rep('x', size)) + " "
  {
    var k, r := size / 4, size % 4;
    assert 4 * k + r == size;
    GroupedBlocks(k, r);
  }

  lemma TextFormatLongBody(size: nat)
    requires size >= 4
    ensures TextFormat(size) == Strip(RepStr("xxxx ", size / 4) + Rep('x', size % 4))
  {
    assert Rep('x', Min(size, 4)) + " " == "xxxx ";
  }

  /** `strip()` of a text with one trailing space and no other edge whitespace. */
  lemma StripTrailingSpace(g: string)
    requires |g| > 0 && !IsSpace(g[0]) && !IsSpace(g[|g| - 1])
    ensures Strip(g + " ") == g
  {
    var b := g + " ";
    assert LStripSpace(b) == b;
    assert b[..|b| - 1] == g;
    assert RStripSpace(b) == RStripSpace(g);
    StripKeeps(g);
  }

  /** The grouping of x's: `RepStr("xxxx ", k) + x^r` is the grouped text, with
      one extra trailing space when `r == 0`. */
  lemma {:induction false} GroupedBlocks(k: nat, r: nat)
    requires k >= 1 && r < 4
    ensures r > 0 ==> RepStr("xxxx ", k) + Rep('x', r) == Group4(Rep('x', 4 * k + r))
    ensures r == 0 ==> RepStr("xxxx ", k) + Rep('x', r) == Group4(Rep('x', 4 * k + r)) + " "
    decreases k
  {
    var n := 4 * k + r;
    if k == 1 {
      assert RepStr("xxxx ", 1) == "xxxx ";
      if r > 0 {
        GroupXsStep(n);
        assert Group4(Rep('x', r)) == Rep('x', r);
      } else {
        assert Group4(Rep('x', 4)) == Rep('x', 4) == "xxxx";
      }
    } else {
      GroupedBlocks(k - 1, r);
      GroupXsStep(n);
      assert 4 * (k - 1) + r == n - 4;
      assert RepStr("xxxx ", k) + Rep('x', r) == "xxxx " + (RepStr("xxxx ", k - 1) + Rep('x', r));
    }
  }

  /** Grouping more than four x's puts four of them, then a space, in front. */
  lemma GroupXsStep(n: nat)
    requires n > 4
    ensures Group4(Rep('x', n)) == "xxxx " + Group4(Rep('x', n - 4))
  {
    var xs := Rep('x', n);
    assert xs[..4] == "xxxx";
    assert xs[4..] == Rep('x', n - 4);
  }

  /** The initial last-good text is `size` zeros grouped by four. */
  lemma InitialLastGood(size: nat)
    ensures ReplaceChar(TextFormat(size), 'x', '0') == Group4(Rep('0', size))
  {
    TextFormatIsGrouped(size);
    ZeroGrouping(size);
  }

  /** The initial last-good text of an even-sized field is itself valid. */
  lemma InitialLastGoodValid(size: nat)
    requires size % 2 == 0
    ensures RawValid(size, ReplaceChar(TextFormat(size), 'x', '0'))
  {
    InitialLastGood(size);
    GroupedZerosValid(size);
  }

  lemma GroupedZerosValid(size: nat)
    requires size % 2 == 0
    ensures RawValid(size, Group4(Rep('0', size)))
  {
    var zs := Rep('0', size);
    assert ' ' !in zs;
    GroupLayout(zs);
    ZerosParse(size);
    FromHexSpaced(zs);
  }

  lemma ZerosParse(size: nat)
    requires size % 2 == 0
    ensures FromHex(Rep('0', size)).Some?
  {
    HexOfZeros(size / 2);
    FromHexHex(RawData.Zeros(size / 2));
  }

  lemma {:induction false} ZeroGrouping(n: nat)
    ensures ReplaceChar(Group4(Rep('x', n)), 'x', '0') == Group4(Rep('0', n))
    decreases n
  {
    var xs, zs := Rep('x', n), Rep('0', n);
    if n > 4 {
      ZeroGrouping(n - 4);
      assert xs[4..] == Rep('x', n - 4) && zs[4..] == Rep('0', n - 4);
      assert xs[..4] == "xxxx" && zs[..4] == "0000";
      var g := Group4(xs);
      assert g == "xxxx" + " " + Group4(Rep('x', n - 4));
      assert Group4(zs) == "0000" + " " + Group4(Rep('0', n - 4));
      assert ReplaceChar(g, 'x', '0') == "0000" + " " + ReplaceChar(Group4(Rep('x', n - 4)), 'x', '0');
    }
  }

  lemma {:induction false} HexOfZeros(k: nat)
    ensures Hex(RawData.Zeros(k)) == Rep('0', 2 * k)
    decreases k
  {
    if k > 0 {
      assert RawData.Zeros(k)[1..] == RawData.Zeros(k - 1);
      HexOfZeros(k - 1);
      assert Rep('0', 2 * k) == "00" + Rep('0', 2 * (k - 1));
    }
  }

  /** Grouping a run of hex digits does not change how it parses: the spaces
      fall between byte pairs. */
  lemma {:induction false} FromHexSpaced(t: string)
    requires forall i :: 0 <= i < |t| ==> IsHexDigit(t[i])
    ensures FromHex(Group4(t)) == FromHex(t)
    decreases |t|
  {
    if |t| > 4 {
      var rest := t[4..];
      FromHexSpaced(rest);
      var g := Group4(t);
      assert g == t[..4] + " " + Group4(rest);
      assert g[2..][2..] == " " + Group4(rest);
      assert (" " + Group4(rest))[1..] == Group4(rest);
      assert t[2..][2..] == rest;
      FromHexPairCongruence(g[2..], t[2..]);
      FromHexPairCongruence(g, t);
    }
  }

  /** A hex line edit (`FormattedLineEdit`): the shown text and the last good text. */
  class FormattedLineEdit {
    const size: nat
    var display: string
    var lastGoodText: string

    constructor (size: nat)
      ensures this.size == size && display == []
      ensures lastGoodText == ReplaceChar(TextFormat(size), 'x', '0')
    {
      this.size := size;
      display := [];
      lastGoodText := ReplaceChar(TextFormat(size), 'x', '0');
    }

    /** `text()`: the shown text without spaces. */
    function Text(): string
      reads this
    {
      RemoveChar(display, ' ')
    }

    method SetText(text: string)
      modifies this
      ensures display == Display(Clean(text)) && lastGoodText == Clean(text)
    {
      var t := RemoveAll(text, "0x");
      t := RemoveChar(t, ' ');
      display := Strip(Group4(t));
      lastGoodText := t;
    }

    method IsRawDataValid(text: string) returns (ok: bool)
      modifies this
      ensures ok == RawValid(size, text)
      ensures display == old(display)
      ensures lastGoodText == if ok then text else old(lastGoodText)
    {
      var raw := RemoveChar(text, ' ');
      if |raw| != size {
        return false;
      }
      if FromHex(text).None? {
        return false;
      }
      lastGoodText := text;
      ok := true;
    }

    /** `focusOutEvent`: an invalid text is replaced by the last good one. */
    method FocusOut()
      modifies this
      ensures RawValid(size, old(Text())) ==> display == old(display) && lastGoodText == old(Text())
      ensures !RawValid(size, old(Text())) ==>
                display == Display(Clean(old(lastGoodText))) && lastGoodText == Clean(old(lastGoodText))
    {
      var ok := IsRawDataValid(Text());
      if !ok {
        SetText(lastGoodText);
      }
    }
  }

  /** A valid last-good text without other whitespace is restored as a valid text. */
  lemma RestoredTextValid(size: nat, lastGood: string)
    requires RawValid(size, lastGood)
    requires forall i :: 0 <= i < |lastGood| ==> lastGood[i] == ' ' || !IsSpace(lastGood[i])
    ensures RawValid(size, RemoveChar(Display(Clean(lastGood)), ' '))
  {
    var t := RemoveChar(lastGood, ' ');
    NoXInHex(lastGood);
    assert RemoveAll(lastGood, "0x") == lastGood by { RemoveAllAbsent(lastGood); }
    assert Clean(lastGood) == t;
    forall i | 0 <= i < |t| ensures !IsSpace(t[i]) {
      assert t[i] in t;
      assert t[i] in lastGood;
    }
    SetTextThenText(lastGood);
    FromHexWithoutSpaces(lastGood);
    RemoveCharAbsent(t, ' ');
  }

  lemma {:induction false} NoXInHex(s: string)
    requires FromHex(s).Some?
    ensures 'x' !in s
    decreases |s|
  {
    if s != [] {
      if IsAsciiSpace(s[0]) {
        NoXInHex(s[1..]);
        assert s == [s[0]] + s[1..];
      } else {
        NoXInHex(s[2..]);
        assert s == [s[0], s[1]] + s[2..];
      }
    }
  }

  lemma {:induction false} RemoveAllAbsent(s: string)
    requires 'x' !in s
    ensures RemoveAll(s, "0x") == s
    decreases |s|
  {
    if |s| >= 2 {
      assert s[1] != 'x';
      assert s[..2] != "0x";
      assert 'x' !in s[1..];
      RemoveAllAbsent(s[1..]);
    }
  }

  // ----- NewSpriteRawEditor -----

  /** The original rebuilt by the `data` getter: `events[:2] + settings + events[2:]`. */
  function JoinEvents(events: seq<Byte>, settings: seq<Byte>): seq<Byte> {
    Take(events, 2) + settings + Drop(events, 2)
  }

  /** The getter's splice inverts RawData's events/settings split for every original. */
  lemma DataSpliceInvertsSplit(o: seq<Byte>)
    ensures JoinEvents(RawData.EventsOf(o), RawData.SettingsOf(o)) == o
  {
    RawData.EventsSettingsRejoin(o);
  }

  /** `_set_size`: the block selector keeps `min(last, size - 1)`, or 0 when
      nothing was selected. */
  function SelectedAfterResize(last: int, size: nat): (r: int)
    ensures last == -1 ==> r == 0
    ensures last >= 0 && size > 0 ==> 0 <= r < size && r <= last
    ensures last >= 0 && last < size ==> r == last
    ensures last >= 0 && size == 0 ==> r == -1
  {
    if last != -1 then Min(last, size - 1) else 0
  }

  /** Parses every block text; None if one of them is not hex. */
  function ParseBlocks(texts: seq<string>): Option<seq<seq<Byte>>> {
    if texts == [] then Some([])
    else match (FromHex(texts[0]), ParseBlocks(texts[1..]))
      case (Some(b), Some(bs)) => Some([b] + bs)
      case _ => None
  }

  /** The `data` getter: events parsed from the events field, the stored
      settings spliced in, one block per block field; None where `fromhex` raises. */
  function DataFromTexts(eventsText: string, settings: seq<Byte>, blockTexts: seq<string>)
    : Option<(seq<Byte>, seq<seq<Byte>>)>
  {
    match (FromHex(eventsText), ParseBlocks(blockTexts))
    case (Some(e), Some(bs)) => Some((JoinEvents(e, settings), bs))
    case _ => None
  }

  /** The text a field shows after `setText(b.hex())`. */
  function HexDisplay(b: seq<Byte>): string {
    Display(Clean(Hex(b)))
  }

  /** That text read back with `text()`. */
  function ShownHex(b: seq<Byte>): string {
    RemoveChar(HexDisplay(b), ' ')
  }

  lemma ShownHexIsHex(b: seq<Byte>)
    ensures ShownHex(b) == Hex(b)
  {
    var h := Hex(b);
    assert 'x' !in h by { FromHexHex(b); NoXInHex(h); }
    RemoveAllAbsent(h);
    assert ' ' !in h;
    RemoveCharAbsent(h, ' ');
    assert Clean(h) == h;
    SetTextThenText(h);
  }

  /** The shown text of each block field after `setText(block.hex())`. */
  function BlockDisplays(blocks: seq<seq<Byte>>): (r: seq<string>)
    ensures |r| == |blocks|
  {
    seq(|blocks|, i requires 0 <= i < |blocks| => HexDisplay(blocks[i]))
  }

  /** `text()` of each block field. */
  function FieldTexts(displays: seq<string>): (r: seq<string>)
    ensures |r| == |displays|
  {
    seq(|displays|, i requires 0 <= i < |displays| => RemoveChar(displays[i], ' '))
  }

  /** Each block's hex text. */
  function HexAll(blocks: seq<seq<Byte>>): (r: seq<string>)
    ensures |r| == |blocks|
  {
    seq(|blocks|, i requires 0 <= i < |blocks| => Hex(blocks[i]))
  }

  lemma ShownBlockTexts(blocks: seq<seq<Byte>>)
    ensures FieldTexts(BlockDisplays(blocks)) == HexAll(blocks)
  {
    var texts := FieldTexts(BlockDisplays(blocks));
    forall i | 0 <= i < |blocks| ensures texts[i] == Hex(blocks[i]) {
      assert texts[i] == ShownHex(blocks[i]);
      ShownHexIsHex(blocks[i]);
    }
  }

  /** Setting `data` and reading it back gives the same original and blocks. */
  lemma DataRoundTrip(original: seq<Byte>, blocks: seq<seq<Byte>>)
    ensures DataFromTexts(ShownHex(RawData.EventsOf(original)), RawData.SettingsOf(original),
                          FieldTexts(BlockDisplays(blocks)))
            == Some((original, blocks))
  {
    var e := RawData.EventsOf(original);
    ShownHexIsHex(e);
    FromHexHex(e);
    DataSpliceInvertsSplit(original);
    ShownBlockTexts(blocks);
    ParseHexAll(blocks);
  }

  /** Every block's hex text parses back to the block. */
  lemma {:induction false} ParseHexAll(blocks: seq<seq<Byte>>)
    ensures ParseBlocks(HexAll(blocks)) == Some(blocks)
    decreases |blocks|
  {
    if blocks != [] {
      var texts := HexAll(blocks);
      assert texts[1..] == HexAll(blocks[1..]);
      ParseHexAll(blocks[1..]);
      FromHexHex(blocks[0]);
      assert blocks == [blocks[0]] + blocks[1..];
    }
  }

  /** The extended-format editor: stored settings, the events field's shown
      text, one shown text per block field, and the selected block. */
  class NewSpriteRawEditor {
    var settings: seq<Byte>
    var eventsDisplay: string
    var blockDisplays: seq<string>
    var selectedBlock: int

    constructor ()
      ensures settings == RawData.Zeros(4) && eventsDisplay == [] && blockDisplays == [] && selectedBlock == -1
    {
      settings := RawData.Zeros(4);
      eventsDisplay := [];
      blockDisplays := [];
      selectedBlock := -1;
    }

    /** `_set_size`: fresh, empty block fields and the selection rule. */
    method SetSize(size: nat)
      modifies this
      ensures |blockDisplays| == size && forall i :: 0 <= i < size ==> blockDisplays[i] == []
      ensures selectedBlock == SelectedAfterResize(old(selectedBlock), size)
      ensures settings == old(settings) && eventsDisplay == old(eventsDisplay)
    {
      var last := selectedBlock;
      blockDisplays := seq(size, _ => []);
      selectedBlock := if last != -1 then Min(last, size - 1) else 0;
    }

    /** The `data` getter. */
    function Data(): Option<(seq<Byte>, seq<seq<Byte>>)>
      reads this
    {
      DataFromTexts(RemoveChar(eventsDisplay, ' '), settings, FieldTexts(blockDisplays))
    }

    /** The `data` setter; reading `data` afterwards gives the same value back. */
    method SetData(original: seq<Byte>, blocks: seq<seq<Byte>>)
      modifies this
      ensures settings == RawData.SettingsOf(original)
      ensures eventsDisplay == HexDisplay(RawData.EventsOf(original))
      ensures blockDisplays == BlockDisplays(blocks)
      ensures Data() == Some((original, blocks))
    {
      if |blocks| != |blockDisplays| {
        SetSize(|blocks|);
      }
      settings := RawData.SettingsOf(original);
      eventsDisplay := HexDisplay(RawData.EventsOf(original));
      var i := 0;
      while i < |blocks|
        invariant 0 <= i <= |blocks| == |blockDisplays|
        invariant forall j :: 0 <= j < i ==> blockDisplays[j] == HexDisplay(blocks[j])
        invariant settings == RawData.SettingsOf(original)
        invariant eventsDisplay == HexDisplay(RawData.EventsOf(original))
      {
        blockDisplays := blockDisplays[i := HexDisplay(blocks[i])];
        i := i + 1;
      }
      assert blockDisplays == BlockDisplays(blocks);
      DataRoundTrip(original, blocks);
    }
  }
}
