/** The part of mov_track_t and mov_stbl_t that the table code reads and updates. */
module Tracks {
  import opened Bytes
  import opened Samples
  import opened ChunkTables
  import opened RunLength
  import opened Boxes

  datatype Edit = Edit(duration: u64, mediaTime: int)

  class Track {
    var samples: seq<Sample>      // at least sampleCount entries; the rest is spare capacity
    var sampleCount: u32
    var offset: nat               // write only: added to every sample offset
    var cttsV1: bool              // MOV_TRACK_FLAG_CTTS_V1
    var timescale: u32            // mdhd.timescale
    var duration: u64             // tkhd.duration
    var video: bool               // tkhd.width and height are positive

    // boxes with a fixed layout, as they are written
    var tkhd: Tree
    var mdhd: Tree
    var hdlr: Tree
    var mediaHeader: Tree         // vmhd, smhd or nmhd
    var dinf: Tree
    var stsd: Tree

    // stbl, as read from a file
    var stsc: seq<StscEntry>      // stscCount entries and room for one sentinel
    var stscCount: nat
    var stco: seq<nat>
    var stts: seq<Run>
    var ctts: seq<Run>
    var elst: seq<Edit>
    var stss: seq<u32>            // sample numbers, from 1
    var sampleOffset: nat         // the reader's next sample

    ghost predicate Valid()
      reads this
    {
      sampleCount <= |samples|
    }

    constructor (timescale: u32, video: bool, tkhd: Tree, mdhd: Tree, hdlr: Tree, mediaHeader: Tree, dinf: Tree, stsd: Tree)
      ensures Valid() && sampleCount == 0 && samples == [] && offset == 0 && !cttsV1
      ensures this.timescale == timescale && this.video == video
      ensures this.tkhd == tkhd && this.mdhd == mdhd && this.hdlr == hdlr
      ensures this.mediaHeader == mediaHeader && this.dinf == dinf && this.stsd == stsd
      ensures stscCount == 0 && stsc == [] && stco == [] && stts == [] && ctts == [] && elst == [] && stss == []
    {
      samples, sampleCount, offset := [], 0, 0;
      cttsV1, this.timescale, duration, this.video := false, timescale, 0, video;
      this.tkhd, this.mdhd, this.hdlr := tkhd, mdhd, hdlr;
      this.mediaHeader, this.dinf, this.stsd := mediaHeader, dinf, stsd;
      stsc, stscCount, stco, stts, ctts, elst, stss, sampleOffset := [], 0, [], [], [], [], [], 0;
    }
  }
}
