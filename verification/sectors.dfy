/** The seven content sectors: the fixed table from a sector key to its
    pin's offset from the sun and its highlight colour, and the round-robin
    assignment of stars to sectors. Both versions share the table (only the
    icon paths differ, and icons are not modelled). */
module Sectors {
  import opened Options

  /** A pin's offset from the centre, in unzoomed pixels, and its colour. */
  datatype Descriptor = Descriptor(x: int, y: int, color: string)

  const SectorCount: nat := 7

  /** The sector the landing page starts in, before any section has been
      reported visible. It is not a key of the table. */
  const StartSector: string := "intro"

  /** The keys in the table's declaration order (`Object.keys` order). */
  const Keys: seq<string> :=
    ["bio", "projects", "mini-projects", "certifications", "extra", "misc", "contact"]

  /** `SECTOR_MAP[key]`, or None for a key outside the table. */
  function Describe(key: string): (r: Option<Descriptor>)
    ensures r.Some? <==> key in Keys
  {
    if key == "bio" then Some(Descriptor(450, -180, "#FFD700"))
    else if key == "projects" then Some(Descriptor(-450, 0, "#00FF41"))
    else if key == "mini-projects" then Some(Descriptor(450, 150, "#FF00FF"))
    else if key == "certifications" then Some(Descriptor(-450, -150, "#00BFFF"))
    else if key == "extra" then Some(Descriptor(450, 0, "#FF69B4"))
    else if key == "misc" then Some(Descriptor(-450, 200, "#00FFFF"))
    else if key == "contact" then Some(Descriptor(0, 280, "#FF4500"))
    else None
  }

  lemma KeysAreDistinct()
    ensures |Keys| == SectorCount
    ensures forall i, j :: 0 <= i < j < |Keys| ==> Keys[i] != Keys[j]
  {
  }

  /** No two pins share a resting position. */
  lemma PinsDoNotOverlap()
    ensures forall i, j :: 0 <= i < j < |Keys| ==>
              Describe(Keys[i]).value.x != Describe(Keys[j]).value.x
              || Describe(Keys[i]).value.y != Describe(Keys[j]).value.y
  {
  }

  /** The sector a star with this index is assigned to: `keys[index % 7]`. */
  function SectorOf(index: nat): (key: string)
    ensures key in Keys
  {
    Keys[index % SectorCount]
  }

  /** Any seven consecutive indices are assigned the seven sectors, each
      exactly once: every key is hit (at an index given explicitly) and no
      two of the indices share a key. */
  lemma SevenConsecutiveCoverAll(start: nat)
    ensures forall k :: 0 <= k < SectorCount ==>
              start <= start + (k - start % SectorCount + SectorCount) % SectorCount < start + SectorCount
              && SectorOf(start + (k - start % SectorCount + SectorCount) % SectorCount) == Keys[k]
    ensures forall j1, j2 :: start <= j1 < j2 < start + SectorCount ==> SectorOf(j1) != SectorOf(j2)
  {
    KeysAreDistinct();
    forall k | 0 <= k < SectorCount
      ensures SectorOf(start + (k - start % SectorCount + SectorCount) % SectorCount) == Keys[k]
    {
      var d := (k - start % SectorCount + SectorCount) % SectorCount;
      var q := start / SectorCount;
      var r := start % SectorCount;
      assert start == q * SectorCount + r;
      if r <= k {
        assert d == k - r;
        assert start + d == q * SectorCount + k;
      } else {
        assert d == k - r + SectorCount;
        assert start + d == (q + 1) * SectorCount + k;
      }
      assert (start + d) % SectorCount == k;
    }
    forall j1, j2 | start <= j1 < j2 < start + SectorCount
      ensures SectorOf(j1) != SectorOf(j2)
    {
      assert j1 % SectorCount != j2 % SectorCount by {
        var q1 := j1 / SectorCount;
        var q2 := j2 / SectorCount;
        assert j1 == q1 * SectorCount + j1 % SectorCount;
        assert j2 == q2 * SectorCount + j2 % SectorCount;
      }
    }
  }
}
