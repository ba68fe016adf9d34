/** Sprite raw data (raw_data.py): an 8-byte "original" block whose bytes
    2..5 are the sprite settings and whose remaining bytes are the event ids,
    followed by a list of 4-byte extended-settings blocks. */
module RawData {
  import opened Common

  /** `RawData.Format`: Vanilla = 16, Extended = 8. */
  datatype Format = Vanilla | Extended {
    function Value(): int {
      match this
      case Vanilla => 16
      case Extended => 8
    }
  }

  /** `bytes(4)`. */
  const ZeroBlock: seq<Byte> := [0, 0, 0, 0]

  /** `bytes(n)`. */
  function Zeros(n: nat): (r: seq<Byte>)
    ensures |r| == n && forall i :: 0 <= i < n ==> r[i] == 0
  {
    seq(n, _ => 0)
  }

  /** `n` copies of `bytes(4)`. */
  function ZeroBlocks(n: nat): (r: seq<seq<Byte>>)
    ensures |r| == n && forall i :: 0 <= i < n ==> r[i] == ZeroBlock
  {
    seq(n, _ => ZeroBlock)
  }

  /** The `events` getter: `original[:2] + original[6:]`. */
  function EventsOf(o: seq<Byte>): seq<Byte> {
    Take(o, 2) + Drop(o, 6)
  }

  /** The `settings` getter: `original[2:6]`. */
  function SettingsOf(o: seq<Byte>): seq<Byte> {
    Slice(o, 2, 6)
  }

  /** The new original written by the `settings` setter. */
  function WithSettings(o: seq<Byte>, v: seq<Byte>): seq<Byte> {
    Take(o, 2) + v + Drop(o, 6)
  }

  /** The new original written by the `events` setter as the source has it:
      the very same splice into bytes 2..5 as the `settings` setter. */
  function WithEventsAsWritten(o: seq<Byte>, v: seq<Byte>): seq<Byte> {
    WithSettings(o, v)
  }

  /** The `events` setter as evidently intended: the first two bytes of the
      value go to bytes 0..1 and the rest to bytes 6.., the inverse of the getter. */
  function WithEvents(o: seq<Byte>, v: seq<Byte>): seq<Byte>
    requires |v| == 4
  {
    v[..2] + SettingsOf(o) + v[2..]
  }

  /** `__setitem__`: `original[:index] + value + original[index + len(value):]`. */
  function WithItem(o: seq<Byte>, index: int, v: seq<Byte>): seq<Byte> {
    Take(o, index) + v + Drop(o, index + |v|)
  }

  /** The settings setter replaces bytes 2..5 and nothing else. */
  lemma SettingsSetter(o: seq<Byte>, v: seq<Byte>)
    requires |o| >= 6 && |v| == 4
    ensures |WithSettings(o, v)| == |o|
    ensures SettingsOf(WithSettings(o, v)) == v
    ensures EventsOf(WithSettings(o, v)) == EventsOf(o)
    ensures forall i :: 0 <= i < |o| && !(2 <= i < 6) ==> WithSettings(o, v)[i] == o[i]
  {
    var r := WithSettings(o, v);
    assert r == o[..2] + v + o[6..];
    assert r[2..6] == v;
    assert r[..2] == o[..2];
    assert r[6..] == o[6..];
  }

  /** As written, the events setter leaves `events` unchanged and writes the
      value into `settings` instead. */
  lemma EventsSetterAsWritten(o: seq<Byte>, v: seq<Byte>)
    requires |o| >= 6 && |v| == 4
    ensures SettingsOf(WithEventsAsWritten(o, v)) == v
    ensures EventsOf(WithEventsAsWritten(o, v)) == EventsOf(o)
  {
    SettingsSetter(o, v);
  }

  /** A concrete input on which the events setter as written does not round-trip. */
  lemma EventsSetterAsWrittenCounterexample()
    ensures var o: seq<Byte> := Zeros(8);
            EventsOf(WithEventsAsWritten(o, [1, 2, 3, 4])) != [1, 2, 3, 4]
  {
    var o: seq<Byte> := Zeros(8);
    EventsSetterAsWritten(o, [1, 2, 3, 4]);
    assert EventsOf(o)[0] == 0;
  }

  /** The corrected events setter round-trips through the getter and leaves the
      settings bytes alone. */
  lemma EventsSetterRoundTrip(o: seq<Byte>, v: seq<Byte>)
    requires |o| == 8 && |v| == 4
    ensures |WithEvents(o, v)| == 8
    ensures EventsOf(WithEvents(o, v)) == v
    ensures SettingsOf(WithEvents(o, v)) == SettingsOf(o)
  {
    var r := WithEvents(o, v);
    assert r == v[..2] + o[2..6] + v[2..];
    assert r[..2] == v[..2];
    assert r[6..] == v[2..];
    assert r[2..6] == o[2..6];
    assert v == v[..2] + v[2..];
  }

  /** Splitting an original into events and settings and re-joining them as
      `events[:2] + settings + events[2:]` gives the original back, whatever
      its length. */
  lemma {:induction false} EventsSettingsRejoin(o: seq<Byte>)
    ensures Take(EventsOf(o), 2) + SettingsOf(o) + Drop(EventsOf(o), 2) == o
  {
    var e := EventsOf(o);
    if |o| >= 6 {
      assert e == o[..2] + o[6..];
      assert e[..2] == o[..2];
      assert e[2..] == o[6..];
      assert o == o[..2] + o[2..6] + o[6..];
    } else if |o| >= 2 {
      assert e == o[..2];
      assert o == o[..2] + o[2..];
    } else {
      assert e == o;
    }
  }

  /** `__setitem__` writes the value at the index and keeps the length when it fits. */
  lemma SetItemInPlace(o: seq<Byte>, index: int, v: seq<Byte>)
    requires 0 <= index && index + |v| <= |o|
    ensures |WithItem(o, index, v)| == |o|
    ensures WithItem(o, index, v)[index..index + |v|] == v
    ensures forall i :: 0 <= i < |o| && !(index <= i < index + |v|) ==> WithItem(o, index, v)[i] == o[i]
  {
    var r := WithItem(o, index, v);
    assert r == o[..index] + v + o[index + |v|..];
  }

  /** Pops trailing `bytes(4)` blocks while more than `floor` blocks remain. */
  function TrimZeroTail(blocks: seq<seq<Byte>>, floor: nat): (r: seq<seq<Byte>>)
    ensures |r| <= |blocks| && r == blocks[..|r|]
    ensures |blocks| <= floor ==> r == blocks
    ensures |blocks| >= floor ==> |r| >= floor
    ensures forall i :: |r| <= i < |blocks| ==> blocks[i] == ZeroBlock
    ensures |r| > floor ==> r[|r| - 1] != ZeroBlock
    decreases |blocks|
  {
    if |blocks| > floor && blocks[|blocks| - 1] == ZeroBlock then
      TrimZeroTail(blocks[..|blocks| - 1], floor)
    else
      blocks
  }

  /** Trimming twice is trimming once. */
  lemma TrimIdempotent(blocks: seq<seq<Byte>>, floor: nat)
    ensures TrimZeroTail(TrimZeroTail(blocks, floor), floor) == TrimZeroTail(blocks, floor)
  {
  }

  /** The blocks after `fix_size_if_needed` for a sprite with `count` extended blocks. */
  function FixedBlocks(blocks: seq<seq<Byte>>, count: nat): (r: seq<seq<Byte>>)
    ensures |blocks| < count ==> r == blocks + ZeroBlocks(count - |blocks|)
    ensures |blocks| >= count ==> r == TrimZeroTail(blocks, count)
  {
    if |blocks| < count then blocks + ZeroBlocks(count - |blocks|) else TrimZeroTail(blocks, count)
  }

  /** The extended-settings count of a sprite, or None for an unknown id
      (`not 0 <= id < NumSprites` or no sprite definition). */
  function SpriteBlockCount(sprites: seq<Option<nat>>, id: int): Option<nat> {
    if 0 <= id < |sprites| then sprites[id] else None
  }

  class RawData {
    var original: seq<Byte>
    var blocks: seq<seq<Byte>>
    const format: Format

    constructor (original: seq<Byte>, blocks: seq<seq<Byte>>, format: Format)
      ensures this.original == original && this.blocks == blocks && this.format == format
    {
      this.original := original;
      this.blocks := blocks;
      this.format := format;
    }

    /** `RawData.from_sprite_id`: eight zero bytes, and one zero block per
        extended setting; Extended format iff that count is non-zero. */
    static method FromSpriteId(sprites: seq<Option<nat>>, id: int) returns (r: RawData)
      ensures fresh(r) && r.original == Zeros(8)
      ensures SpriteBlockCount(sprites, id).None? ==> r.blocks == [] && r.format == Vanilla
      ensures SpriteBlockCount(sprites, id).Some? ==>
                var n := SpriteBlockCount(sprites, id).value;
                r.blocks == ZeroBlocks(n) && r.format == (if n != 0 then Extended else Vanilla)
    {
      var count := SpriteBlockCount(sprites, id);
      if count.None? {
        r := new RawData(Zeros(8), [], Vanilla);
      } else {
        var n := count.value;
        r := new RawData(Zeros(8), ZeroBlocks(n), if n != 0 then Extended else Vanilla);
      }
    }

    method SetEventsAsWritten(value: seq<Byte>)
      requires |value| == 4
      modifies this
      ensures original == WithEventsAsWritten(old(original), value) && blocks == old(blocks)
    {
      original := Take(original, 2) + value + Drop(original, 6);
    }

    method SetEvents(value: seq<Byte>)
      requires |value| == 4
      modifies this
      ensures original == WithEvents(old(original), value) && blocks == old(blocks)
    {
      original := value[..2] + Slice(original, 2, 6) + value[2..];
    }

    method SetSettings(value: seq<Byte>)
      requires |value| == 4
      modifies this
      ensures original == WithSettings(old(original), value) && blocks == old(blocks)
    {
      original := Take(original, 2) + value + Drop(original, 6);
    }

    method SetOriginal(value: seq<Byte>)
      requires |value| == 8
      modifies this
      ensures original == value && blocks == old(blocks)
    {
      original := value;
    }

    method SetItem(index: int, value: seq<Byte>)
      modifies this
      ensures original == WithItem(old(original), index, value) && blocks == old(blocks)
    {
      original := Take(original, index) + value + Drop(original, index + |value|);
    }

    method Copy() returns (c: RawData)
      ensures fresh(c)
      ensures c.original == original && c.blocks == blocks && c.format == format
    {
      c := new RawData(original, blocks, format);
    }

    /** `fix_size_if_needed`: pad with zero blocks up to the sprite's count,
        then drop trailing zero blocks above it; unknown sprites are untouched. */
    method FixSizeIfNeeded(sprites: seq<Option<nat>>, id: int)
      modifies this
      ensures original == old(original)
      ensures blocks == match SpriteBlockCount(sprites, id)
                        case None => old(blocks)
                        case Some(n) => FixedBlocks(old(blocks), n)
    {
      var count := SpriteBlockCount(sprites, id);
      if count.None? {
        return;
      }
      var n := count.value;
      while |blocks| < n
        invariant original == old(original)
        invariant |old(blocks)| < n ==> |blocks| <= n && blocks == old(blocks) + ZeroBlocks(|blocks| - |old(blocks)|)
        invariant |old(blocks)| >= n ==> blocks == old(blocks)
        decreases n - |blocks|
      {
        blocks := blocks + [ZeroBlock];
      }
      ghost var padded := blocks;
      while |blocks| > n
        invariant original == old(original)
        invariant |blocks| >= n
        invariant TrimZeroTail(blocks, n) == TrimZeroTail(padded, n)
        decreases |blocks|
      {
        if blocks[|blocks| - 1] != ZeroBlock {
          break;
        }
        blocks := blocks[..|blocks| - 1];
      }
    }

    /** `optimized`: a copy without its trailing zero blocks; the receiver is untouched. */
    method Optimized() returns (c: RawData)
      ensures fresh(c)
      ensures c.original == original && c.format == format
      ensures c.blocks == TrimZeroTail(blocks, 0)
    {
      c := Copy();
      while |c.blocks| > 0 && c.blocks[|c.blocks| - 1] == ZeroBlock
        invariant fresh(c) && c.original == original && c.format == format
        invariant TrimZeroTail(c.blocks, 0) == TrimZeroTail(blocks, 0)
        decreases |c.blocks|
      {
        c.blocks := c.blocks[..|c.blocks| - 1];
      }
    }
  }
}
