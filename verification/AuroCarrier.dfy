/** One carrier channel, detector and decoder together: samples in, decoded
    blocks out, each as the unfolder asks for it. */
module AuroCarrier {
  import opened Bytes
  import opened AuroHeaders
  import opened AuroUnmix
  import opened AuroRestore
  import AuroBits
  import Track = AuroTrack
  import Detect = AuroDetect
  import Decode = AuroDecode
  import Join = AuroJoin

  /** The block the unfolder gets for a report: the streams its header announces,
      unmixed from its own samples with the residuals it codes; none when its
      decoding is refused. */
  function BlockOf(r: Track.Report, amplify: Amplify): (b: Option<Join.Block>)
    ensures b.Some? ==> Join.Due(b.value) == Track.DueAt(r)
    ensures b.Some? ==> b.value.start == r.start && b.value.size == |r.block| <= AuroBits.MAX_BLOCK
    ensures b.Some? ==> Join.Modest(b.value)
  {
    var m := r.header.lsbBits;
    if !Detect.InBounds(r) || Decode.DecodedHeader(r.block, m).Err? then None
    else
      var s := Decode.DecodedHeader(r.block, m).value;
      var f := Decode.FoldedIn(r.block, m, s);
      Some(Join.Block(r.start, |r.block|, OutputsOf(s, f, amplify)))
  }

  function OutputsOf(s: StreamBlock, f: Folded, amplify: Amplify): (outs: seq<Join.Output>)
    requires Decode.Shapely(s) && Ready(s.mode, f)
    ensures |outs| == s.mode
    ensures forall j | 0 <= j < |outs| :: |outs[j].samples| == |f.carrier| && Join.Quiet(outs[j].samples)
  {
    seq(s.mode, j requires 0 <= j < s.mode =>
      Join.Output(s.ids[j], OutputOf(s.mode, f, Decode.GainsOf(s), amplify, j)))
  }

  /** What becomes of a run of reports, in order. */
  function BlocksOf(reports: seq<Track.Report>, amplify: Amplify): (blocks: seq<Join.Block>)
    ensures forall k | 0 <= k < |blocks| :: Join.Modest(blocks[k]) && blocks[k].size <= AuroBits.MAX_BLOCK
  {
    if reports == [] then []
    else
      BlocksOf(reports[..|reports| - 1], amplify) + Listed(BlockOf(reports[|reports| - 1], amplify))
  }

  function Listed(b: Option<Join.Block>): seq<Join.Block> {
    if b.Some? then [b.value] else []
  }

  lemma NoBlocks(amplify: Amplify)
    ensures BlocksOf([], amplify) == []
  {
  }

  lemma OneReportMore(reports: seq<Track.Report>, i: nat, amplify: Amplify)
    requires i < |reports|
    ensures BlocksOf(reports[..i + 1], amplify)
      == BlocksOf(reports[..i], amplify) + Listed(BlockOf(reports[i], amplify))
  {
    assert reports[..i + 1][..i] == reports[..i];
  }

  lemma {:induction false} BlocksOfBoth(a: seq<Track.Report>, b: seq<Track.Report>, amplify: Amplify)
    ensures BlocksOf(a + b, amplify) == BlocksOf(a, amplify) + BlocksOf(b, amplify)
  {
    if b == [] {
      assert a + b == a;
    } else {
      hide BlockOf, Join.Modest;
      var front := b[..|b| - 1];
      assert (a + b)[..|a + b| - 1] == a + front;
      BlocksOfBoth(a, front, amplify);
    }
  }

  lemma {:induction false} BlocksDue(reports: seq<Track.Report>, amplify: Amplify, from: nat, to: nat)
    requires forall i | 0 <= i < |reports| :: from < Track.DueAt(reports[i]) <= to
    ensures forall k | 0 <= k < |BlocksOf(reports, amplify)| :: from < Join.Due(BlocksOf(reports, amplify)[k]) <= to
  {
    if reports != [] {
      BlocksDue(reports[..|reports| - 1], amplify, from, to);
    }
  }

  /** Every block a carrier that was heard so far has come to. */
  function CarrierBlocks(p: Track.Parser, amplify: Amplify, heard: seq<i32>): (blocks: seq<Join.Block>)
    ensures forall k | 0 <= k < |blocks| :: Join.Modest(blocks[k]) && blocks[k].size <= AuroBits.MAX_BLOCK
  {
    BlocksOf(Track.TrackOf(p, heard).reports, amplify)
  }

  /** More samples only add blocks, and only such as are due among them. */
  lemma CarrierBlocksGrow(p: Track.Parser, amplify: Amplify, heard: seq<i32>, more: seq<i32>)
    requires Track.Lawful(p) && heard <= more
    ensures var was, now := CarrierBlocks(p, amplify, heard), CarrierBlocks(p, amplify, more);
            was <= now && forall k | |was| <= k < |now| :: |heard| < Join.Due(now[k]) <= |more|
  {
    Track.ReportsGrow(p, heard, more);
    var was, now := Track.TrackOf(p, heard).reports, Track.TrackOf(p, more).reports;
    var added := now[|was|..];
    assert now == was + added;
    BlocksOfBoth(was, added, amplify);
    BlocksDue(added, amplify, |heard|, |more|);
  }

  /** The first so many outputs of a decoder's three buffers. */
  function Taken(a: seq<i32>, b: seq<i32>, c: seq<i32>, s: StreamBlock, n: nat): (outs: seq<Join.Output>)
    requires Decode.Shapely(s) && n <= |a| && n <= |b| && n <= |c|
    ensures |outs| == s.mode
  {
    [Join.Output(s.ids[0], a[..n]), Join.Output(s.ids[1], b[..n]), Join.Output(s.ids[2], c[..n])][..s.mode]
  }

  lemma OutputsTaken(a: seq<i32>, b: seq<i32>, c: seq<i32>, s: StreamBlock, f: Folded, amplify: Amplify)
    requires Decode.Shapely(s) && Ready(s.mode, f) && |f.carrier| <= Min(Min(|a|, |b|), |c|)
    requires Unmixed(s.mode, f, Decode.GainsOf(s), amplify, a, b, c)
    ensures Taken(a, b, c, s, |f.carrier|) == OutputsOf(s, f, amplify)
  {
  }

  class ChannelDecoder {
    const detector: Detect.ChannelDetector
    const decoder: Decode.BlockDecoder
    const scratch: array<i32>
    const amplify: Amplify
    var decodeErrors: nat
    ghost const Repr: set<object>

    ghost predicate Valid()
      reads Repr - {this}
    {
      && Owns() && detector.Valid() && decoder.Valid() && scratch.Length == AuroBits.MAX_BLOCK
      && scratch != detector.ring && scratch !in Buffers() && detector.ring !in Buffers()
      && decoder.payload.words as object !in {scratch as object, detector.ring as object}
    }

    ghost predicate Owns() {
      && this in Repr && detector in Repr && detector.ring in Repr && decoder in Repr && decoder.payload in Repr
      && decoder.payload.words in Repr && decoder.codebook in Repr && Buffers() <= Repr && scratch in Repr
    }

    ghost function Buffers(): set<object> {
      {decoder.residuals, decoder.a, decoder.b, decoder.c, decoder.codebook.entries}
    }

    /** The blocks decoded so far. */
    ghost function Blocks(): seq<Join.Block>
      reads detector
    {
      CarrierBlocks(detector.p, amplify, detector.heard)
    }

    constructor (amplify: Amplify)
      ensures Valid() && fresh(Repr) && this.amplify == amplify
      ensures detector.heard == [] && detector.p == Track.BlockParser() && decodeErrors == 0
    {
      var finder := new Detect.ChannelDetector();
      var blocks := new Decode.BlockDecoder();
      var room := new i32[AuroBits.MAX_BLOCK](_ => 0);
      detector, decoder, scratch := finder, blocks, room;
      this.amplify := amplify;
      decodeErrors := 0;
      Repr := {this, finder, finder.ring, blocks, blocks.payload, blocks.payload.words, blocks.codebook,
               blocks.residuals, blocks.a, blocks.b, blocks.c, blocks.codebook.entries, room};
    }

    /** Samples in; exactly the blocks they complete out, in order, each due within
        this call; a validated block that does not decode is counted instead. */
    method Push(samples: seq<i32>) returns (blocks: seq<Join.Block>)
      requires Valid()
      modifies Repr
      ensures Valid() && detector.heard == old(detector.heard) + samples
      ensures Blocks() == old(Blocks()) + blocks
      ensures forall k | 0 <= k < |blocks| :: Join.Modest(blocks[k]) && blocks[k].size <= AuroBits.MAX_BLOCK
      ensures forall k | 0 <= k < |blocks| :: |old(detector.heard)| < Join.Due(blocks[k]) <= |detector.heard|
      ensures |blocks| + decodeErrors == old(decodeErrors) + |detector.track.reports| - |old(detector.track.reports)|
    {
      hide Detect.ChannelDetector.Valid, Decode.BlockDecoder.Valid, BlocksOf, Join.Modest, Detect.InBounds;
      detector.TrackIs();
      var reports := detector.Push(samples, scratch);
      detector.TrackIs();
      BlocksOfBoth(old(detector.track.reports), reports, amplify);
      BlocksDue(reports, amplify, |old(detector.heard)|, |detector.heard|);
      blocks := DecodeAll(reports);
    }

    /** Every report decoded in turn. */
    method DecodeAll(reports: seq<Track.Report>) returns (blocks: seq<Join.Block>)
      requires Valid() && forall i | 0 <= i < |reports| :: Detect.InBounds(reports[i])
      modifies this`decodeErrors, decoder.payload, decoder.payload.words, decoder.codebook, Buffers()
      ensures Valid() && blocks == BlocksOf(reports, amplify)
      ensures |blocks| + decodeErrors == old(decodeErrors) + |reports|
    {
      hide ChannelDecoder.Valid, BlocksOf, Detect.InBounds;
      assert BlocksOf(reports[..0], amplify) == [] by {
        NoBlocks(amplify);
      }
      blocks := [];
      for i := 0 to |reports|
        invariant Valid() && blocks == BlocksOf(reports[..i], amplify)
        invariant |blocks| + decodeErrors == old(decodeErrors) + i
      {
        OneReportMore(reports, i, amplify);
        blocks := DecodeNext(reports[i], blocks);
      }
      assert reports[..|reports|] == reports;
    }

    method DecodeNext(r: Track.Report, before: seq<Join.Block>) returns (blocks: seq<Join.Block>)
      requires Valid() && Detect.InBounds(r)
      modifies this`decodeErrors, decoder.payload, decoder.payload.words, decoder.codebook, Buffers()
      ensures Valid() && blocks == before + Listed(BlockOf(r, amplify))
      ensures |blocks| + decodeErrors == |before| + old(decodeErrors) + 1
    {
      hide ChannelDecoder.Valid, BlockOf;
      var decoded := DecodeReport(r);
      blocks := before + Listed(decoded);
      if decoded.None? {
        decodeErrors := decodeErrors + 1;
      }
    }

    method DecodeReport(r: Track.Report) returns (block: Option<Join.Block>)
      requires Valid() && Detect.InBounds(r)
      modifies decoder.payload, decoder.payload.words, decoder.codebook, Buffers()
      ensures Valid() && block == BlockOf(r, amplify)
    {
      hide Detect.ChannelDetector.Valid, Decode.BlockDecoder.Valid, Unmixed, OutputsOf, Decode.DecodedHeader,
        Decode.FoldedIn, Decode.GainsOf, Decode.IndicesIn, Join.Modest;
      decoder.RoomForBlocks();
      var decoded := decoder.Decode(r.block, r.header.lsbBits, amplify);
      if decoded.Err? {
        return None;
      }
      var outs := Taken(decoder.a[..], decoder.b[..], decoder.c[..], decoded.value, |r.block|);
      OutputsTaken(decoder.a[..], decoder.b[..], decoder.c[..], decoded.value,
                   Decode.FoldedIn(r.block, r.header.lsbBits, decoded.value), amplify);
      block := Some(Join.Block(r.start, |r.block|, outs));
    }
  }
}
