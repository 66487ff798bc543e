/** How the mock fills a read's destination: whole pages of a file carry one seeded byte each. */
module Seeded {
  import opened Types
  import opened MockDisk
  import opened Arithmetic

  type Seeds = map<(FileId, nat), Byte>

  /** The byte position `i` of a destination gets: its page's seed, or what was there when the page
      has none or its number does not fit 32 bits. */
  function ByteFor(seeds: Seeds, file: FileId, granule: nat, offset: nat, before: Byte): Byte
    requires granule > 0
  {
    var page := PageOf(offset, granule);
    if page <= U32_MAX && (file, page) in seeds then seeds[(file, page)] else before
  }

  function PageOf(offset: nat, granule: nat): nat
    requires granule > 0
  {
    offset / granule
  }

  function Fill(seeds: Seeds, file: FileId, granule: nat, offset: nat, destination: seq<Byte>): (r: seq<Byte>)
    requires granule > 0
    ensures |r| == |destination|
    ensures forall i | 0 <= i < |r| :: r[i] == ByteFor(seeds, file, granule, offset + i, destination[i])
  {
    seq(|destination|, i requires 0 <= i < |destination| => ByteFor(seeds, file, granule, offset + i, destination[i]))
  }

  lemma Euclid(x: nat, granule: nat)
    requires granule > 0
    ensures x == PageOf(x, granule) * granule + x % granule && x % granule < granule
  {
  }

  lemma PagesGrow(x: nat, y: nat, granule: nat)
    requires granule > 0 && x <= y
    ensures PageOf(x, granule) <= PageOf(y, granule)
  {
    Euclid(x, granule);
    Euclid(y, granule);
    hide PageOf;
    QuotientOrder(PageOf(x, granule), x % granule, PageOf(y, granule), y % granule, granule);
  }

  lemma SamePage(x: nat, d: nat, granule: nat)
    requires granule > 0 && x % granule + d < granule
    ensures PageOf(x + d, granule) == PageOf(x, granule)
  {
    Euclid(x, granule);
    Euclid(x + d, granule);
    hide PageOf;
    PagesGrow(x, x + d, granule);
    QuotientOrder(PageOf(x + d, granule), (x + d) % granule, PageOf(x, granule), x % granule + d, granule);
  }

  /** Page by page: every byte of a seeded page whose number fits 32 bits is its seed, and every other byte
      is as it was. */
  lemma FilledPage(seeds: Seeds, file: FileId, granule: nat, offset: nat, destination: seq<Byte>, page: nat, i: nat)
    requires granule > 0 && i < |destination| && page * granule <= offset + i < (page + 1) * granule
    ensures Fill(seeds, file, granule, offset, destination)[i]
            == if page <= U32_MAX && (file, page) in seeds then seeds[(file, page)] else destination[i]
  {
    Euclid(offset + i, granule);
    hide PageOf;
    var p, within := PageOf(offset + i, granule), offset + i - page * granule;
    assert (page + 1) * granule == page * granule + granule;
    QuotientOrder(p, (offset + i) % granule, page, within, granule);
    QuotientOrder(page, within, p, (offset + i) % granule, granule);
  }

  /** The chunked loop, one page at a time, that stops at the first page past 32 bits: it fills every
      byte as the per-byte rule says and leaves the others alone. */
  method FillSeededPrefix(seeds: Seeds, file: FileId, granule: nat, fileOffset: nat, destination: array<Byte>)
    requires granule > 0
    modifies destination
    ensures destination[..] == Fill(seeds, file, granule, fileOffset, old(destination[..]))
  {
    hide PageOf;
    var transferred := 0;
    while transferred < destination.Length
      invariant transferred <= destination.Length
      invariant forall i | 0 <= i < transferred ::
                destination[i] == ByteFor(seeds, file, granule, fileOffset + i, old(destination[i]))
      invariant forall i | transferred <= i < destination.Length :: destination[i] == old(destination[i])
    {
      var offset := fileOffset + transferred;
      var page := PageOf(offset, granule);
      if page > U32_MAX {
        forall i | transferred <= i < destination.Length
          ensures ByteFor(seeds, file, granule, fileOffset + i, old(destination[i])) == destination[i]
        {
          PagesGrow(offset, fileOffset + i, granule);
        }
        break;
      }
      var within := offset % granule;
      var count := granule - within;
      if destination.Length - transferred < count { count := destination.Length - transferred; }
      forall i | transferred <= i < transferred + count
        ensures ByteFor(seeds, file, granule, fileOffset + i, old(destination[i]))
                == if (file, page) in seeds then seeds[(file, page)] else destination[i]
      {
        SamePage(offset, i - transferred, granule);
      }
      if (file, page) in seeds {
        forall i | transferred <= i < transferred + count { destination[i] := seeds[(file, page)]; }
      }
      transferred := transferred + count;
    }
  }

  /** Filling a prefix and then the remainder is filling the whole, wherever the cut falls. */
  lemma FillSplits(seeds: Seeds, file: FileId, granule: nat, offset: nat, a: seq<Byte>, b: seq<Byte>)
    requires granule > 0
    ensures Fill(seeds, file, granule, offset, a + b)
            == Fill(seeds, file, granule, offset, a) + Fill(seeds, file, granule, offset + |a|, b)
  {
    var whole, parts := Fill(seeds, file, granule, offset, a + b),
                        Fill(seeds, file, granule, offset, a) + Fill(seeds, file, granule, offset + |a|, b);
    forall i | 0 <= i < |whole| ensures whole[i] == parts[i] {
      assert (a + b)[i] == if i < |a| then a[i] else b[i - |a|];
    }
  }

  function Flat(chunks: seq<seq<Byte>>): seq<Byte> {
    if chunks == [] then [] else chunks[0] + Flat(chunks[1..])
  }

  /** The destinations of a vector read, filled one after the other. */
  function FillChunks(seeds: Seeds, file: FileId, granule: nat, offset: nat,
                      chunks: seq<seq<Byte>>): (r: seq<seq<Byte>>)
    requires granule > 0
    decreases |chunks|
  {
    if chunks == [] then []
    else
      [Fill(seeds, file, granule, offset, chunks[0])]
      + FillChunks(seeds, file, granule, offset + |chunks[0]|, chunks[1..])
  }

  /** A vector read sees the same bytes as one flat read of the same range. */
  lemma {:induction false} FillChunksIsFill(seeds: Seeds, file: FileId, granule: nat, offset: nat,
                                            chunks: seq<seq<Byte>>)
    requires granule > 0
    ensures Flat(FillChunks(seeds, file, granule, offset, chunks)) == Fill(seeds, file, granule, offset, Flat(chunks))
    decreases |chunks|
  {
    if chunks != [] {
      FillChunksIsFill(seeds, file, granule, offset + |chunks[0]|, chunks[1..]);
      FillSplits(seeds, file, granule, offset, chunks[0], Flat(chunks[1..]));
      var filled := FillChunks(seeds, file, granule, offset, chunks);
      assert filled[1..] == FillChunks(seeds, file, granule, offset + |chunks[0]|, chunks[1..]);
    }
  }
}
