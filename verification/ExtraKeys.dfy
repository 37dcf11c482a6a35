/** vllm/v1/core/kv_cache_utils.py, `generate_block_hash_extra_keys`: the extra keys of a
    block, one for each image that overlaps it, with the place in the image at which the
    block begins.

    The keys are generated in two ways.  Hashing a request from scratch walks through the
    images with a running index.  Extending the keys of a running request asks for the last
    image only.  The two agree exactly under a condition on the last two images. */
module ExtraKeys {
  import opened Options

  type Extra = Option<seq<(string, nat)>>

  datatype Image = Image(offset: nat, length: nat, hash: string) {
    function End(): nat {
      offset + length
    }
  }

  datatype Result<T> = Ok(value: T) | ValueError | AssertionError
  datatype Generated = Generated(extra: Extra, index: int)

  /** Images do not overlap and are sorted by offset; each covers some token. */
  ghost predicate InOrder(images: seq<Image>) {
    && (forall k :: 0 <= k < |images| ==> images[k].length > 0)
    && forall k, l :: 0 <= k < l < |images| ==> images[k].End() <= images[l].offset
  }

  function Entry(image: Image, start: nat): (string, nat) {
    (image.hash, if start > image.offset then start - image.offset else 0)
  }

  /** An entry names the image and how far into it the block begins. */
  lemma EntryIs(image: Image, start: nat)
    ensures Entry(image, start).0 == image.hash
    ensures image.offset + Entry(image, start).1 == if start > image.offset then start else image.offset
  {
  }

  /** The entries for a block from image `k` on, and the image to go on with. */
  function Collected(images: seq<Image>, start: nat, end: nat, k: nat): (seq<(string, nat)>, nat)
    decreases |images| - k
  {
    if k >= |images| || end <= images[k].offset then ([], k)
    else if start > images[k].End() then Collected(images, start, end, k + 1)
    else if end >= images[k].End() then
      var rest := Collected(images, start, end, k + 1);
      ([Entry(images[k], start)] + rest.0, rest.1)
    else ([Entry(images[k], start)], k)
  }

  /** `generate_block_hash_extra_keys`. */
  function Generate(images: seq<Image>, start: nat, end: nat, index: int): Result<Generated> {
    if images == [] || images[|images| - 1].End() < start then Ok(Generated(None, index))
    else if index < 0 && -index > |images| then AssertionError
    else
      var c := Collected(images, start, end, if index < 0 then |images| + index else index);
      Ok(Generated(Some(c.0), c.1))
  }

  /** The same as the loop it is, on the lists of positions and hashes. */
  method GenerateExtraKeys(positions: seq<(nat, nat)>, hashes: seq<string>, start: nat, end: nat, index: int)
    returns (r: Result<Generated>)
    ensures r.ValueError? <==> positions != [] && |positions| != |hashes|
    ensures !r.ValueError? && positions != [] ==> r == Generate(Images(positions, hashes), start, end, index)
    ensures positions == [] ==> r == Ok(Generated(None, index))
  {
    hide Collected;
    if positions == [] {
      return Ok(Generated(None, index));
    }
    if |positions| != |hashes| {
      return ValueError;
    }
    ghost var images := Images(positions, hashes);
    var last := positions[|positions| - 1];
    if last.0 + last.1 < start {
      return Ok(Generated(None, index));
    }
    var curr := index;
    if index < 0 {
      if -index > |positions| {
        return AssertionError;
      }
      curr := |positions| + index;
    }
    var extra: seq<(string, nat)> := [];
    ghost var all := Collected(images, start, end, curr);
    assert [] + all.0 == all.0;
    while curr < |positions|
      invariant curr >= 0 && all.0 == extra + Collected(images, start, end, curr).0
      invariant all.1 == Collected(images, start, end, curr).1
      decreases |positions| - curr
    {
      CollectedNext(images, start, end, curr, extra);
      var offset, length := positions[curr].0, positions[curr].1;
      if end > offset {
        if start > offset + length {
          curr := curr + 1;
          continue;
        }
        extra := extra + [(hashes[curr], if start > offset then start - offset else 0)];
        if end >= offset + length {
          curr := curr + 1;
        } else {
          return Ok(Generated(Some(extra), curr));
        }
      } else {
        return Ok(Generated(Some(extra), curr));
      }
    }
    CollectedAll(images, start, end, curr, extra);
    r := Ok(Generated(Some(extra), curr));
  }

  /** What the loop does with one image. */
  lemma CollectedNext(images: seq<Image>, start: nat, end: nat, k: nat, extra: seq<(string, nat)>)
    requires k < |images|
    ensures var c, next := Collected(images, start, end, k), Collected(images, start, end, k + 1);
            var entry := Entry(images[k], start);
            if end <= images[k].offset then extra + c.0 == extra && c.1 == k
            else if start > images[k].End() then c == next
            else if end >= images[k].End() then extra + c.0 == extra + [entry] + next.0 && c.1 == next.1
            else extra + c.0 == extra + [entry] && c.1 == k
  {
  }

  lemma CollectedAll(images: seq<Image>, start: nat, end: nat, k: nat, extra: seq<(string, nat)>)
    requires k >= |images|
    ensures extra + Collected(images, start, end, k).0 == extra && Collected(images, start, end, k).1 == k
  {
  }

  function Images(positions: seq<(nat, nat)>, hashes: seq<string>): seq<Image>
    requires |positions| == |hashes|
  {
    seq(|positions|, i requires 0 <= i < |positions| => Image(positions[i].0, positions[i].1, hashes[i]))
  }

  // ----- the two ways

  /** The running index before block `i` when hashing from scratch. */
  function Running(images: seq<Image>, blockSize: nat, i: nat): nat {
    if i == 0 then 0
    else
      var k := Running(images, blockSize, i - 1);
      match Generate(images, (i - 1) * blockSize, i * blockSize, k)
      case Ok(g) => if g.index >= 0 then g.index else 0
      case _ => k
  }

  /** The extra keys of block `i` when hashing from scratch. */
  function Scratch(images: seq<Image>, blockSize: nat, i: nat): Extra {
    match Generate(images, i * blockSize, (i + 1) * blockSize, Running(images, blockSize, i))
    case Ok(g) => g.extra
    case _ => None
  }

  /** The extra keys of block `i` when the keys of a running request are extended. */
  function Late(images: seq<Image>, blockSize: nat, i: nat): Extra {
    match Generate(images, i * blockSize, (i + 1) * blockSize, -1)
    case Ok(g) => g.extra
    case _ => None
  }

  /** The first image that ends after `x`. */
  ghost predicate FirstOpen(images: seq<Image>, x: nat, k: nat) {
    && k <= |images|
    && (forall l :: 0 <= l < k ==> images[l].End() <= x)
    && (k < |images| ==> images[k].End() > x)
  }

  /** From the first open image on, a block collects the open images it reaches and leaves
      the index at the first image open at its end. */
  lemma {:induction false} CollectedFacts(images: seq<Image>, start: nat, end: nat, k: nat)
    requires InOrder(images) && start <= end && k <= |images|
    requires forall l :: 0 <= l < k ==> images[l].End() <= end
    requires k < |images| ==> images[k].End() > start
    ensures FirstOpen(images, end, Collected(images, start, end, k).1)
    ensures k < |images| && images[|images| - 1].End() <= end ==> |Collected(images, start, end, k).0| == |images| - k
    decreases |images| - k
  {
    if k < |images| && end > images[k].offset && end >= images[k].End() {
      assert k + 1 < |images| ==> images[k + 1].End() > images[k].End();
      CollectedFacts(images, start, end, k + 1);
    } else if k < |images| {
      assert k < |images| - 1 ==> images[k].End() <= images[|images| - 1].offset;
    }
  }

  /** Entry `j` of a block is that of image `k + j`, which begins before its end. */
  ghost predicate EntryAt(es: seq<(string, nat)>, images: seq<Image>, start: nat, end: nat, k: nat, j: nat) {
    && j < |es| && k + j < |images| && es[j] == Entry(images[k + j], start) && images[k + j].offset < end
  }

  /** The entries of a block are those of the open images that begin before its end. */
  ghost predicate EntriesOf(es: seq<(string, nat)>, images: seq<Image>, start: nat, end: nat, k: nat) {
    && k + |es| <= |images|
    && (forall j :: 0 <= j < |es| ==> EntryAt(es, images, start, end, k, j))
    && (k + |es| < |images| ==> images[k + |es|].offset >= end)
  }

  lemma OneMoreEntry(rest: seq<(string, nat)>, images: seq<Image>, start: nat, end: nat, k: nat)
    requires k < |images| && images[k].offset < end && EntriesOf(rest, images, start, end, k + 1)
    ensures EntriesOf([Entry(images[k], start)] + rest, images, start, end, k)
  {
    var es := [Entry(images[k], start)] + rest;
    assert k + |es| == k + 1 + |rest|;
    forall j | 0 <= j < |es|
      ensures EntryAt(es, images, start, end, k, j)
    {
      if j > 0 {
        assert EntryAt(rest, images, start, end, k + 1, j - 1);
        assert k + 1 + (j - 1) == k + j;
      }
    }
  }

  lemma {:induction false} CollectedAre(images: seq<Image>, start: nat, end: nat, k: nat)
    requires InOrder(images) && k <= |images| && (k < |images| ==> images[k].End() > start)
    ensures EntriesOf(Collected(images, start, end, k).0, images, start, end, k)
    decreases |images| - k
  {
    if k < |images| && end > images[k].offset {
      if k + 1 < |images| {
        assert images[k + 1].End() > images[k].End() && images[k + 1].offset >= images[k].End();
      }
      if end >= images[k].End() {
        CollectedAre(images, start, end, k + 1);
        OneMoreEntry(Collected(images, start, end, k + 1).0, images, start, end, k);
      } else {
        NoEntries(images, start, end, k + 1);
        OneMoreEntry([], images, start, end, k);
        assert [Entry(images[k], start)] + [] == [Entry(images[k], start)];
      }
    }
  }

  lemma NoEntries(images: seq<Image>, start: nat, end: nat, k: nat)
    requires k <= |images| && (k < |images| ==> images[k].offset >= end)
    ensures EntriesOf([], images, start, end, k)
  {
  }

  /** Hashing from scratch, a block gets the images that overlap it, or none at all when all
      images end before it. */
  lemma ScratchIsOverlap(images: seq<Image>, blockSize: nat, i: nat)
    requires InOrder(images) && blockSize > 0
    ensures var start, end := i * blockSize, (i + 1) * blockSize;
            if images == [] || images[|images| - 1].End() < start then Scratch(images, blockSize, i) == None
            else
              && Scratch(images, blockSize, i).Some?
              && exists k ::
                   FirstOpen(images, start, k) && EntriesOf(Scratch(images, blockSize, i).value, images, start, end, k)
  {
    hide EntriesOf;
    if images != [] && images[|images| - 1].End() >= i * blockSize {
      var k := Running(images, blockSize, i);
      RunningIsFirstOpen(images, blockSize, i);
      CollectedAre(images, i * blockSize, (i + 1) * blockSize, k);
    }
  }

  lemma {:induction false} RunningIsFirstOpen(images: seq<Image>, blockSize: nat, i: nat)
    requires InOrder(images) && blockSize > 0
    ensures images != [] ==> FirstOpen(images, i * blockSize, Running(images, blockSize, i))
    ensures images == [] ==> Running(images, blockSize, i) == 0
  {
    if i == 0 {
      assert 0 * blockSize == 0;
    } else {
      RunningIsFirstOpen(images, blockSize, i - 1);
      var start, end, k := (i - 1) * blockSize, i * blockSize, Running(images, blockSize, i - 1);
      assert start <= end;
      if images != [] && images[|images| - 1].End() >= start {
        CollectedFacts(images, start, end, k);
      } else if images != [] {
        assert k == |images|;
      }
    }
  }

  /** The block reaches past all images, as every block with a generated token does. */
  ghost predicate PastImages(images: seq<Image>, blockSize: nat, i: nat) {
    images != [] ==> images[|images| - 1].End() <= (i + 1) * blockSize
  }

  /** The last image ended before the block, or it is the only one that reaches into it. */
  predicate LateAgrees(images: seq<Image>, blockSize: nat, i: nat) {
    var n, start := |images|, i * blockSize;
    || n == 0
    || images[n - 1].End() < start
    || (images[n - 1].End() > start && (n == 1 || images[n - 2].End() <= start))
  }

  /** For a block past all images the two ways agree exactly unless the block begins where
      the last image ends, or two images reach into it. */
  lemma LateIsScratchIff(images: seq<Image>, blockSize: nat, i: nat)
    requires InOrder(images) && blockSize > 0 && PastImages(images, blockSize, i)
    ensures Late(images, blockSize, i) == Scratch(images, blockSize, i) <==> LateAgrees(images, blockSize, i)
  {
    if images != [] {
      var n, start, end := |images|, i * blockSize, (i + 1) * blockSize;
      assert start <= end;
      RunningIsFirstOpen(images, blockSize, i);
      var k := Running(images, blockSize, i);
      if images[n - 1].End() >= start {
        LateEntry(images, start, end);
        if k < n {
          CollectedFacts(images, start, end, k);
          assert k < n - 1 ==> images[k].End() <= images[n - 2].End();
        }
      }
    }
  }

  lemma LateEntry(images: seq<Image>, start: nat, end: nat)
    requires InOrder(images) && images != [] && start <= images[|images| - 1].End() <= end
    ensures Collected(images, start, end, |images| - 1).0 == [Entry(images[|images| - 1], start)]
  {
    assert Collected(images, start, end, |images|).0 == [];
  }

  /** One image that fills block 0: block 1 has no extra keys from scratch and one when the
      keys are extended. */
  lemma LateDiffers(images: seq<Image>, hash: string)
    requires images == [Image(0, 4, hash)]
    ensures Scratch(images, 4, 1) == Some([]) && Late(images, 4, 1) == Some([(hash, 4)])
  {
    assert Running(images, 4, 0) == 0;
    assert Collected(images, 0, 4, 1) == ([], 1);
    assert Running(images, 4, 1) == 1;
    assert Collected(images, 4, 8, 1) == ([], 1);
    LateEntry(images, 4, 8);
  }
}
