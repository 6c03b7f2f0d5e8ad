/** The stream of a small bundle, byte by byte. */
module BundleStream {
  import opened Common
  import opened AppTree

  /** "a" */
  const OUTER: Path := [0x61]
  /** "a/b" */
  const INNER: Path := [0x61, 0x2F, 0x62]

  /** A directory with one executable file of two bytes. */
  const SMALL: Disk := Folder([Child([0x61], Folder([Child([0x62], Plain([7, 9], true))]))])

  const ENTRIES: seq<Entry> := [Entry(OUTER, Directory, false, []), Entry(INNER, File, true, [7, 9])]

  lemma SmallIsListed()
    ensures SMALL.Folder? && Listing(SMALL) == ENTRIES
  {
    var inner := Folder([Child([0x62], Plain([7, 9], true))]);
    assert Join([0x61], [0x62]) == INNER;
    assert Item(inner.children[0], [0x61]) == [ENTRIES[1]] + [];
    assert Below(inner, 1, [0x61]) == [];
    assert Below(inner, 0, [0x61]) == [ENTRIES[1]];
    assert Item(SMALL.children[0], []) == [ENTRIES[0]] + [ENTRIES[1]];
    assert Below(SMALL, 1, []) == [];
  }

  lemma FileHeader()
    ensures WellFormed(ENTRIES[1])
    ensures Record(ENTRIES[1]) == [2, 0, 0, 0, 3, 0x61, 0x2F, 0x62, 1, 0, 0, 0, 0, 0, 0, 0, 2, 7, 9]
  {
    assert Be32(3) == [0, 0, 0, 3];
    assert Be64(2) == [0, 0, 0, 0, 0, 0, 0, 2];
  }

  lemma DirectoryHeader()
    ensures WellFormed(ENTRIES[0])
    ensures Record(ENTRIES[0]) == [1, 0, 0, 0, 1, 0x61, 0]
  {
    assert Be32(1) == [0, 0, 0, 1];
  }

  /** The magic with a zero and the version, the number of entries, and of each entry
      its kind, path, executable class, and content behind its length. */
  lemma SmallStream()
    ensures AllWellFormed(ENTRIES)
    ensures Stream(ENTRIES)
         == [0x41, 0x50, 0x50, 0x50, 0x49, 0x4C, 0x4F, 0x54, 0x4B, 0x49, 0x54, 0x2D,
             0x49, 0x4F, 0x53, 0x2D, 0x41, 0x50, 0x50, 0x2D, 0x54, 0x52, 0x45, 0x45, 0, 1]
            + [0, 0, 0, 2]
            + [1, 0, 0, 0, 1, 0x61, 0]
            + [2, 0, 0, 0, 3, 0x61, 0x2F, 0x62, 1, 0, 0, 0, 0, 0, 0, 0, 2, 7, 9]
  {
    hide Record, WellFormed;
    FileHeader();
    DirectoryHeader();
    assert Be32(2) == [0, 0, 0, 2];
    assert ENTRIES[1..] == [ENTRIES[1]] && ENTRIES[1..][1..] == [];
    assert Records(ENTRIES[1..]) == Record(ENTRIES[1]) + [];
  }
}
