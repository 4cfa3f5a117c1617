# A verified model of the recorder's media and transport code

The repository records camera streams into MP4, fragmented MP4 and MPEG program streams, converts H.264 between
its two stream forms, and carries data over QUIC with a BBR congestion controller. This project models the parts
that are hardest to get right and proves what they promise. `dafny verify dfyconfig.toml` checks all of it.

Code that works by changing things step by step is modelled by classes and methods with the loops of the source;
each method is proved against a function of values, and the promises are proved about those functions.

* **MP4 sample tables and relocation** (`Bytes`, `MovStream`, `Samples`, `ChunkTables`, `RunLength`, `Boxes`, `Tracks`,
  `Stco`, `StcoApply`, `Stsc`, `Stts`, `Timeline`, `Elst`, `Stsz`, `Stss`, `TrackWriter`, `Moov`, `TrackReader`,
  `TrackRoundTrip`, `TrackReload`, `TrackRead`, `Relocation`, `Rotate`, `MovWriter`, `FastStart`, `Playback`, `MovReader`).
  From the samples handed to the writer, through two layers of run-length tables, the fixpoint for the size of moov and
  the rotation of the file in place, to the samples a reader expands after opening the file at its first byte.
  `MovReader.FinishAndRead` puts all of it together.
* **Recording with a reserved hole** (`Recording`, `LiveReader`): moov is rewritten into its hole while the recording goes
  on, and a reader may open the file after any update.
* **Seeking** (`Seek`): the nearest sample and the nearest key frame.
* **Fragmented MP4** (`TrackFragment`, `TrackFragmentWriter`, `TrackFragmentReader`, `TrackFragmentRoundTrip`, `MoofWriter`,
  `Moof`, `FragmentWriter`, `Fmp4Writer`, `FragmentReader`, `FragmentPlayback`, `FragmentFidelity`): the moof box that is
  written twice, the interleaving loop, whole runs of the writer, and the walk of the reader.
* **BBR** (`MinMax`, `BbrState`, `BbrInvariants`, `BbrRuns`, `BbrTiming`, `BbrRounds`, `BbrBandwidth`, `BbrModes`, `BbrSending`,
  `Bbr`): a state machine over events, and over its runs what the estimates mean, when rounds start and modes change, and
  which windows and rates the sender gets; the class `Controller` carries it out in place.
* **Tick queue** (`Attq`): a binary heap with back-indices, on objects.
* **H.264** (`NalUnits`, `UnitForms`, `ParamArena`, `ParamStore`, `AvcConfig`, `AvcConvert`): splitting, format detection, the compacting
  arena of parameter sets, the decoder configuration record, and both conversions.
* **File cache** (`FileCache`): one buffer for reading and writing against the plain file.
* **Program stream** (`PsBits`, `PsHeaders`, `PsMux`): bit fields, checksum, headers and packets, and a demultiplexer that
  gets every stream back.

Where the code does not do what it is meant to do, the exact condition under which it does is proved instead:
`Timeline.DecodingTimesRoundTrip`, `Timeline.PtsFollowsDtsIff`, `Elst.StartRoundTripIff`, `Stsz.SizesRoundTripIff`,
`Playback.RecordedIsStorable`, `Recording.UpdatedTilesIff`, `Recording.MediaStaysIff`, `FragmentFidelity.PlacesSurviveIff`,
`FragmentFidelity.KeysSurviveIff`, `FragmentFidelity.ClockRunsOn`, `FragmentWriter.CursorArrivesIff`,
`BbrTiming.RecoveryStartsIff`, `MinMax.LowerBoundIff`, `BbrModes.LowerRttIsIgnoredIff`, `Attq.Queue.CountBefore`, `NalUnits.AvccIsDetectedIff`, `NalUnits.StrideAgreesIff`,
`UnitForms.LengthsSurviveIff`, `AvcConvert.FramesSurviveIff`, `AvcConfig.RecordRoundTripIff`, `FileCache.WritesSurviveIff`.
Beside these stand concrete failures: `Attq.UncountedElement`, `AvcConvert.SingleByteSwallowsTheRest`,
`AvcConfig.ThirtyTwoSpsAreLost`, `FileCache.WriteAfterRead`, `MinMax.MeasurementIsLost` and `NalUnits.NeverAdvances`.

Files are byte sequences; `int` stands for the signed 64-bit times of the source, and casts to 32 bits, wrap-around of
words and truncating division are written out. File positions are natural numbers.

## Model

| member | source | states |
|---|---|---|
| `Bytes.WordsDecode` | libmp4/libmp4/source/mov-ioutil.h:174-211 | every 32-bit word that w32 emitted is what r32 reads at its place |
| `MovStream.Stream.Seek` | libmp4/libmp4/source/mov-ioutil.h:41-50 | moves the position, clears the error, changes no byte |
| `MovStream.Stream.Write` | libmp4/libmp4/source/mov-ioutil.h:76-94 | overwrites or extends the file at the position and nowhere else |
| `MovStream.Stream.Read` | libmp4/libmp4/source/mov-ioutil.h:63-67 | all bytes, or what is left and a sticky error |
| `MovStream.Stream.R32` | libmp4/libmp4/source/mov-ioutil.h:174-180 | the big-endian word at the position, or an error |
| `MovStream.Stream.PatchU32` | libmp4/libmp4/source/mov-writer.c:90-98 | replaces the size word of a box in the middle of a run of writes; the run goes on where it was |
| `RunLength.RunsRoundTrip` | libmp4/libmp4/source/mov-stts.c:145-222 | run-length coding loses no value |
| `RunLength.RunsAreMaximal` | libmp4/libmp4/source/mov-stts.c:151-172 | neighbouring runs differ, so the run list is the shortest one |
| `Stts.BuildStts` | libmp4/libmp4/source/mov-stts.c:145-174 | the scratch fields mark exactly the runs of the gaps; no media field changes |
| `Stts.BuildCtts` | libmp4/libmp4/source/mov-stts.c:176-206 | the same for the composition offsets, and the version flag |
| `Stts.NeedsV1Iff` | libmp4/libmp4/source/mov-stts.c:183-203 | version 1 is chosen exactly when an offset is negative (signed 32-bit offsets) |
| `Stts.WriteStts` | libmp4/libmp4/source/mov-stts.c:94-117 | the bytes of the box, one entry for each run |
| `Stts.WriteCtts` | libmp4/libmp4/source/mov-stts.c:119-143 | the bytes of the box, with its version |
| `Stts.ReadRuns` | libmp4/libmp4/source/mov-stts.c:7-62 | the entries as they stand in the file |
| `Timeline.ApplyStts` | libmp4/libmp4/source/mov-stts.c:208-222 | gap i is the value of the run that covers sample i; only times change |
| `Timeline.ApplyCtts` | libmp4/libmp4/source/mov-stts.c:224-247 | every pts gets its offset less the least negative offset; only pts changes |
| `Timeline.DecodingTimesRoundTrip` | libmp4/libmp4/source/mov-stts.c:145-222 | decoded times keep their distances if and only if every gap is positive and fits 32 bits |
| `Timeline.CompositionOffsetsRoundTrip` | libmp4/libmp4/source/mov-stts.c:176-247 | composition offsets come back up to one constant, also when the box was omitted |
| `Timeline.ShiftIsZeroIff` | libmp4/libmp4/source/mov-stts.c:230-245 | that constant is 0 if and only if no offset lies below -1 |
| `Timeline.PtsFollowsDtsIff` | libmp4/libmp4/source/mov-stts.c:230-245 | decoded pts never precede dts, except if and only if -1 is the least offset |
| `Elst.WriteElst` | libmp4/libmp4/source/mov-elst.c:47-106 | the bytes of the edit list, with one or two edits and the version its times need |
| `Elst.ReadElst` | libmp4/libmp4/source/mov-elst.c:7-45 | the edits as they stand in the file |
| `Elst.StartRoundTripIff` | libmp4/libmp4/source/mov-elst.c:47-123 | the start time survives if and only if the second edit is not mistaken for an empty one |
| `Elst.StartReadBack` | libmp4/libmp4/source/mov-elst.c:47-123 | the start a reader finds, from pts, dts and the two time scales |
| `Elst.ApplyElst` | libmp4/libmp4/source/mov-elst.c:108-123 | the first sample starts at the last empty edit; nothing else changes |
| `ChunkTables.ChunksDescribe` | libmp4/libmp4/source/mov-stco.c:116-144 | first layer: the chunks built from the samples describe every offset and description index |
| `ChunkTables.ChunksAreMaximal` | libmp4/libmp4/source/mov-stco.c:116-144 | a chunk starts at a sample if and only if file position or description index jumps there |
| `ChunkTables.DescribedPlacementIsUnique` | libmp4/libmp4/source/mov-stco.c:146-174 | a chunk list and the sizes determine every sample, so decoding has no choice |
| `ChunkTables.StscRoundTrip` | libmp4/libmp4/source/mov-stsc.c:46-86 | second layer: stsc and the chunk offsets give back the chunk list, moved by the track offset |
| `ChunkTables.StscIsCompressed` | libmp4/libmp4/source/mov-stsc.c:57-75 | consecutive stsc entries differ, and later ones start later |
| `Stco.BuildStco` | libmp4/libmp4/source/mov-stco.c:116-144 | the scratch fields mark exactly the chunks; no media field changes |
| `Stco.WriteStco` | libmp4/libmp4/source/mov-stco.c:61-90 | stco, or co64 when the last sample moved past 32 bits; one offset for each chunk |
| `Stco.ReadStco` | libmp4/libmp4/source/mov-stco.c:23-59 | the offsets as they stand in the file, in either width |
| `Stco.StcoSize` | libmp4/libmp4/source/mov-stco.c:92-114 | the bytes the box gains when the track moves |
| `StcoApply.ApplyStco` | libmp4/libmp4/source/mov-stco.c:146-174 | every sample gets the place its chunk says; all samples are consumed, within bounds, sentinel included |
| `Stsc.WriteStsc` | libmp4/libmp4/source/mov-stsc.c:46-86 | one entry for each chunk that differs from its predecessor, with the count patched in |
| `Stsc.ReadStsc` | libmp4/libmp4/source/mov-stsc.c:17-44 | the entries as they stand in the file, with room for the sentinel |
| `Stsz.WriteStsz` | libmp4/libmp4/source/mov-stsz.c:101-131 | one common size, or the list of sizes |
| `Stsz.ReadStsz` | libmp4/libmp4/source/mov-stsz.c:8-41 | as many fresh samples as the box says, with their sizes |
| `Stsz.SizesRoundTripIff` | libmp4/libmp4/source/mov-stsz.c:8-131 | the reader stops at the end of the box, and every size comes back, if and only if the track is not all empty samples |
| `Stss.WriteStss` | libmp4/libmp4/source/mov-stss.c:32-66 | the numbers of the key frames |
| `Stss.ReadStss` | libmp4/libmp4/source/mov-stss.c:7-30 | the numbers as they stand in the file |
| `Stss.ApplyStss` | libmp4/libmp4/source/mov-stss.c:68-79 | the samples named become key frames, numbers out of range are ignored, nothing else changes |
| `Stss.KeyFramesRoundTrip` | libmp4/libmp4/source/mov-stss.c:32-79 | exactly the key frames are named |
| `TrackWriter.CttsDecision` | libmp4/libmp4/source/mov-track.c:239-241 | ctts is omitted exactly when all offsets are zero, read off the scratch field |
| `TrackWriter.WriteStbl` | libmp4/libmp4/source/mov-track.c:220-250 | the sample table box; the scratch fields serve stts, ctts and the chunks in turn and end up holding the chunks |
| `TrackWriter.WriteTrak` | libmp4/libmp4/source/mov-track.c:304-321 | the bytes of the track box and its true size |
| `Moov.WriteMoov` | libmp4/libmp4/source/mov-writer.c:27-51 | the bytes of the movie box and its true size, one trak for each track with samples |
| `TrackReader.ReadBoxes` | libmp4/libmp4/source/mov-reader.c:288-392 | walks the boxes below a track and loads exactly the tables in them |
| `TrackReload.TrakLoads` | libmp4/libmp4/source/mov-track.c:220-340 | reading a written track box fills in exactly the tables that were written |
| `TrackRead.Expand` | libmp4/libmp4/source/mov-reader.c:114-126 | the expansions run in the order of the source, each on the result of the one before |
| `TrackRead.ReadTrak` | libmp4/libmp4/source/mov-reader.c:108-130 | tables and expansions of a track box |
| `TrackRead.WrittenConsistent` | libmp4/libmp4/source/mov-reader.c:108-130 | the tables of a written track agree in their counts, so the expansions stay in bounds |
| `TrackRead.PlacementSurvives` | libmp4/libmp4/source/mov-reader.c:117-123 | every sample comes back at its place, with size, description index and key flag |
| `TrackRead.TimelineSurvives` | libmp4/libmp4/source/mov-reader.c:117-125 | the times come back: distances if and only if the gaps fit, composition offsets up to the constant, and the start as the scaled pts of the first sample, or 0, or its media time if the last edit is mistaken |
| `TrackRead.EditListSurvives` | libmp4/libmp4/source/mov-elst.c:47-106 | the edit list read back: an empty edit in front if and only if the scaled pts of the first sample is positive, then one edit with the duration of the track and its media time |
| `MovWriter.MovWriter.constructor` | libmp4/libmp4/source/mov-writer.c:162-220 | ftyp, then a free box or pwdt and a hole for moov, then the header of an empty mdat |
| `MovWriter.MovWriter.Write` | libmp4/libmp4/source/mov-writer.c:366-410 | one sample more, with the pts, dts and key flag handed over, scaled toward zero; all books stay right |
| `MovWriter.TrackBytesAre` | libmp4/libmp4/source/mov-writer.c:389-408 | the blocks of a track in the file are its samples and nothing else, so their sizes add up alike |
| `FastStart.SamplesDisjoint` | libmp4/libmp4/source/mov-writer.c:389-408 | two samples of any tracks never share a byte |
| `FastStart.SampleInside` | libmp4/libmp4/source/mov-writer.c:389-408 | every sample lies inside mdat |
| `FastStart.SizesSumToMdat` | libmp4/libmp4/source/mov-writer.c:389-408 | the sizes of all samples of all tracks add up to mdat_size |
| `FastStart.SealMdat` | libmp4/libmp4/source/mov-writer.c:237-251 | mdat gets its size, taking the free box for a 64-bit one |
| `Relocation.MoovGrowth` | libmp4/libmp4/source/mov-writer.c:301-308 | moving all samples makes moov longer by exactly the sum of the stco growths, so the assertion after the rewrite holds |
| `Relocation.CoGrowth` | libmp4/libmp4/source/mov-writer.c:280-299 | the loop ends, at the least fixpoint of the growth |
| `Rotate.Move` | libmp4/libmp4/source/mov-writer.c:322-364 | the block [from, from+bytes) stands in front of [to, from), and no other byte changed, for any sizes |
| `FastStart.FinishFastStart` | libmp4/libmp4/source/mov-writer.c:223-320 | the finished file is the sealed file with the moved moov in front of mdat; its size is the move |
| `FastStart.AllReadable` | libmp4/libmp4/source/mov-writer.c:273-311 | in the finished file every sample lies at its moved offset |
| `Playback.RecordedAscends` | libmp4/libmp4/source/mov-writer.c:389-408 | samples of a track lie in the order of writing |
| `Playback.LastOffsetDecidesWidth` | libmp4/libmp4/source/mov-stco.c:67-69 | looking at the last sample only is enough: 64-bit offsets are chosen if and only if some sample lies beyond 32 bits |
| `Playback.RecordedIsStorable` | libmp4/libmp4/source/mov-stco.c:61-90 | a recorded track loses nothing in its tables if and only if it is not all empty samples |
| `Playback.WrittenBytesAreReadBack` | libmp4/libmp4/source/mov-writer.c:273-311 | at every offset the reader decodes from the final tables lie the bytes that were written |
| `Recording.WriteMoovEx` | libmp4/libmp4/source/mov-writer.c:53-88 | moov of any size that passes the unsigned assertion, and the box for the rest of the hole with its wrapped size, as bytes |
| `Recording.UpdateMoov` | libmp4/libmp4/source/mov-writer.c:541-587 | recording goes on at the same place, the hole holds the new moov, the media bytes stay for a moov of up to 8 + MOOV_LEN bytes, and the file is sound for one of up to MOOV_LEN |
| `Recording.UpdatedTilesIff` | libmp4/libmp4/source/mov-writer.c:53-88 | for every size that passes the assertion: ftyp, pwdt, moov, skip and mdat tile the file if and only if moov is at most MOOV_LEN long |
| `Recording.MediaStaysIff` | libmp4/libmp4/source/mov-writer.c:541-587 | the media bytes stay, whatever they are, if and only if moov has at most 8 + MOOV_LEN bytes |
| `Recording.UpdateFreeData` | libmp4/libmp4/source/mov-writer.c:504-539 | writes the value at its place, into pwdt and nothing behind it if it fits the four bytes |
| `Recording.FreeBytesRead` | libmp4/libmp4/source/mov-writer.c:517-536 | the bytes read back as the value modulo the range of the width; other widths write nothing |
| `Recording.AddTrack` | libmp4/libmp4/source/mov-writer.c:437-495 | a new track keeps the books of the recording |
| `Recording.Refresh` | libmp4/libmp4/source/mov-writer.c:560-577 | new durations keep the books of the recording |
| `Seek.IndexBuild` | libmp4/libmp4/source/mov-reader.c:69-101 | lists the key frames of a video track, in order, and nothing for other tracks |
| `Seek.BuiltListIsSearchable` | libmp4/libmp4/source/mov-reader.c:84-99 | the list is in range and ascends in time |
| `Seek.CorrectedIsNearest` | libmp4/libmp4/source/mov-reader.c:684-689 | where the search stops, one of three neighbours is nearest of all, ties and times out of range included |
| `Seek.SampleSeek` | libmp4/libmp4/source/mov-reader.c:697-734 | stands at a sample nearest to the time |
| `Seek.NearestOfAllSamples` | libmp4/libmp4/source/mov-reader.c:697-734 | no sample of a track in decoding order is closer to the time asked for |
| `Seek.StssSeek` | libmp4/libmp4/source/mov-reader.c:650-695 | stands at a listed key frame nearest to the time, and reports its time |
| `Seek.NearestOfAllKeyFrames` | libmp4/libmp4/source/mov-reader.c:650-695 | with a built list, nearest among all key frames of the track |
| `Seek.ReaderSeek` | libmp4/libmp4/source/mov-reader.c:571-602 | video tracks first, each asking for the time found before; the others go nearest to the time found last |
| `TrackFragmentWriter.WriteTfhd` | libmp4/libmp4/source/mov-tfhd.c:52-98 | the bytes of tfhd, whichever fields its flags announce |
| `TrackFragmentReader.ReadHeader` | libmp4/libmp4/source/mov-tfhd.c:18-49 | the fields announced, the defaults of the track for the others |
| `TrackFragmentRoundTrip.HeaderReadsBack` | libmp4/libmp4/source/mov-tfhd.c:5-98 | for every flag word the fields present come back |
| `TrackFragmentWriter.WriteTfdt` | libmp4/libmp4/source/mov-tfdt.c:26-48 | the bytes of tfdt, in 32 or 64 bits |
| `TrackFragmentReader.ReadTfdt` | libmp4/libmp4/source/mov-tfdt.c:8-24 | the time in the box plus the empty edits of the track |
| `TrackFragmentRoundTrip.TimeReadsBack` | libmp4/libmp4/source/mov-tfdt.c:8-48 | every signed 64-bit time comes back, negative ones too; the short form is taken exactly below 2^31 |
| `TrackFragmentWriter.ChooseFlags` | libmp4/libmp4/source/mov-trun.c:97-110 | a column is announced exactly when some sample needs it |
| `TrackFragmentWriter.WriteTrun` | libmp4/libmp4/source/mov-trun.c:86-163 | the bytes of trun for any run of samples |
| `TrackFragmentReader.ReadTrun` | libmp4/libmp4/source/mov-trun.c:8-84 | the samples of the run, the time and the file position behind it |
| `TrackFragmentRoundTrip.RunIsSound` | libmp4/libmp4/source/mov-trun.c:86-163 | the number of words is what flags and count announce |
| `TrackFragmentRoundTrip.RowReadsBack` | libmp4/libmp4/source/mov-trun.c:45-67 | duration, size and composition offset of every sample come back, whether written or defaulted |
| `TrackFragmentRoundTrip.AnyRunReads` | libmp4/libmp4/source/mov-trun.c:8-84 | a run with any columns, in either version: each is found in its place, defaults apply to the others |
| `TrackFragmentRoundTrip.GapsAddUpIff` | libmp4/libmp4/source/mov-trun.c:106-142 | the stated durations add up to the times if and only if every gap is a 32-bit number |
| `MoofWriter.WriteTraf` | libmp4/libmp4/source/fmp4-writer.c:51-108 | tfhd, tfdt and one trun for each stretch of consecutive samples |
| `MoofWriter.ColumnsIff` | libmp4/libmp4/source/mov-trun.c:86-150 | the defaults are those of the first sample, and a column is announced if and only if some sample of the run deviates |
| `MoofWriter.RunsAreStretches` | libmp4/libmp4/source/fmp4-writer.c:51-108 | the truns of a track are the longest stretches of samples without a jump |
| `Moof.PlaceTrack` | libmp4/libmp4/source/fmp4-writer.c:131-135 | back to back from the given place |
| `Moof.PlacingTwice` | libmp4/libmp4/source/fmp4-writer.c:131-135 | the second pass places every sample where the first did |
| `Moof.BothPassesSameSize` | libmp4/libmp4/source/fmp4-writer.c:264-267 | whatever the data offsets are, the two passes have the same size |
| `Moof.WriteMoof` | libmp4/libmp4/source/fmp4-writer.c:110-143 | the bytes of one pass: mfhd, and one traf for each track with samples |
| `FragmentPlayback.OneRun` | libmp4/libmp4/source/fmp4-writer.c:96-104 | placed samples make a single run |
| `FragmentWriter.WriteMoofTwice` | libmp4/libmp4/source/fmp4-writer.c:262-267 | after the second pass the file is the old one and the moof with its data offsets |
| `FragmentWriter.Round` | libmp4/libmp4/source/fmp4-writer.c:299-312 | one round of the loop leaves the cursor at the sum of the stored sizes; a later round changes nothing |
| `FragmentWriter.Interleave` | libmp4/libmp4/source/fmp4-writer.c:297-312 | the loop ends and writes every sample exactly once, track after track |
| `FragmentWriter.CursorArrivesIff` | libmp4/libmp4/source/fmp4-writer.c:440-453 | that sum reaches mdat_size if and only if no block is as long as 2^32 bytes, so only then the loop ends |
| `FragmentWriter.BlockInMedia` | libmp4/libmp4/source/fmp4-writer.c:297-312 | sample i of track j lies where the placing put it |
| `Fmp4Writer.Fmp4Writer.constructor` | libmp4/libmp4/source/fmp4-writer.c:355-377 | an empty file and tracks without samples |
| `Fmp4Writer.Fmp4Writer.Write` | libmp4/libmp4/source/fmp4-writer.c:404-457 | one entry more with block, pts, dts and key as handed over; a fragment is sent off exactly by a forced sample or a video key frame; a lone video track is cut into its groups of pictures |
| `Fmp4Writer.Fmp4Writer.WriteFragment` | libmp4/libmp4/source/fmp4-writer.c:231-323 | appends one fragment with all pending samples and clears the tracks, or does nothing when there is no media; groups of pictures stay whole |
| `Fmp4Writer.FragmentInFile` | libmp4/libmp4/source/fmp4-writer.c:231-323 | every fragment stays in the file where its moof says it starts |
| `Fmp4Writer.ConservedFlush` | libmp4/libmp4/source/fmp4-writer.c:314-320 | a sample handed over is in exactly one fragment or still pending, in order |
| `Fmp4Writer.StartedWrite` | libmp4/libmp4/source/fmp4-writer.c:451-452 | the start of the clock is fixed by the first sample of all |
| `FragmentReader.FragmentReader.ReadMoof` | libmp4/libmp4/source/mov-reader.c:173-182 | walks moof and its trafs; offsets count from where moof starts |
| `FragmentReader.FragmentReader.ReadTfhd` | libmp4/libmp4/source/mov-tfhd.c:5-50 | finds the track by its number and fills in its header |
| `FragmentPlayback.TrafLoads` | libmp4/libmp4/source/mov-reader.c:288-392 | reading a written traf gives its own track its samples and changes no other |
| `FragmentPlayback.PlayFragment` | libmp4/libmp4/source/mov-reader.c:173-182 | reading the moof of a written fragment gives every track exactly its part |
| `FragmentFidelity.SampleHeard` | libmp4/libmp4/source/mov-trun.c:42-78 | size, time, composition offset and place of every sample as the reader computes them |
| `FragmentFidelity.TimesSurviveIff` | libmp4/libmp4/source/mov-trun.c:134-142 | distances in time come back if and only if every gap is a 32-bit number |
| `FragmentFidelity.CompositionSurvivesIff` | libmp4/libmp4/source/mov-trun.c:154-158 | a composition offset comes back if and only if it is a signed 32-bit number |
| `FragmentFidelity.KeysSurviveIff` | libmp4/libmp4/source/mov-trun.c:37-73 | key flags come back if and only if the first sample is a key frame and the others are key frames exactly in audio tracks |
| `FragmentFidelity.PlacesSurviveIff` | libmp4/libmp4/source/fmp4-writer.c:262-295 | the decoded offsets are the true file positions if and only if mdat has an 8-byte header and the first data offset is below 2^31 |
| `FragmentFidelity.DataSurvives` | libmp4/libmp4/source/fmp4-writer.c:262-312 | under that condition the bytes handed over lie at every decoded offset |
| `FragmentFidelity.ClockRunsOn` | libmp4/libmp4/source/fmp4-writer.c:415-425 | over a run: the write that sends a fragment off makes the clock of its track end the fragment where the next one starts, if and only if the new sample is not earlier than the last and less than 2^32 ms later |
| `FragmentFidelity.OtherClocks` | libmp4/libmp4/source/fmp4-writer.c:415-425 | for every other track the clock runs on if and only if its next gap repeats its last one |
| `FragmentFidelity.RunLies` | libmp4/libmp4/source/fmp4-writer.c:231-323 | over a whole run every fragment lies in the file, and fragment k has number k + 1 |
| `FragmentFidelity.NumbersInFile` | libmp4/libmp4/source/fmp4-writer.c:110-150 | over a whole run the sequence numbers in the file count from 1 |
| `FragmentFidelity.RunClock` | libmp4/libmp4/source/mov-tfdt.c:34 | over a whole run all fragments of a track count from the same start |
| `FragmentFidelity.RunHeard` | libmp4/libmp4/source/fmp4-writer.c:404-462 | over a whole run: what a reader hears of sample i of a fragment is the entry that was handed to the writer, in size, time, composition offset and bytes |
| `MinMax.EstimateIsRecentMaximum` | lsquic/libquic/src/lsquic_minmax.c:69-132 | the estimate is the maximum of all measurements from some point inside the window on, and it falls only when its measurement has left the window |
| `MinMax.RememberedHolds` | lsquic/libquic/src/lsquic_minmax.c:69-132 | what the filter keeps bounds the estimate until the window has passed |
| `MinMax.LowerBoundIff` | lsquic/libquic/src/lsquic_minmax.c:69-132 | a measurement bounds the estimate from below for a whole window, whatever follows, if and only if the filter keeps it as its best, its second, or as its third choice with the first two apart |
| `MinMax.MeasurementIsLost` | lsquic/libquic/src/lsquic_minmax.c:69-132 | an instance: 7 measured at time 7 is no lower bound at time 17, where the estimate is 0 |
| `BbrInvariants.StepKeeps` | lsquic/libquic/src/lsquic_bbr.c:166-1049 | every event keeps the invariant of modes, gains, windows and samples |
| `BbrInvariants.FullBwWasMeasured` | lsquic/libquic/src/lsquic_bbr.c:631-671 | the assertion of check_if_full_bw_reached holds |
| `BbrInvariants.ReportedWindow` | lsquic/libquic/src/lsquic_bbr.c:762-777 | the window reported between events is at least four segments in every mode and recovery state |
| `BbrRuns.Reachable` | lsquic/libquic/src/lsquic_bbr.c:166-1049 | the invariant holds in every state of every run |
| `BbrRuns.ModesAlways` | lsquic/libquic/src/lsquic_bbr.c:571-740 | DRAIN and PROBE_BW imply full bandwidth, STARTUP implies the opposite, each mode fixes its gains |
| `BbrRuns.FullBandwidthAlwaysMeasured` | lsquic/libquic/src/lsquic_bbr.c:631-671 | over all runs that assertion never fails |
| `BbrRuns.LowGainFollowsHighGain` | lsquic/libquic/src/lsquic_bbr.c:571-619 | in every run the 0.75 phase is entered only at the end of an ack and only from the 1.25 phase |
| `BbrRuns.HighGainBefore` | lsquic/libquic/src/lsquic_bbr.c:571-619 | every stretch of the 0.75 phase directly follows a 1.25 phase |
| `BbrRuns.WindowsAlways` | lsquic/libquic/src/lsquic_bbr.c:904-943 | in every reachable state the window is between its bounds |
| `BbrRuns.WindowSteps` | lsquic/libquic/src/lsquic_bbr.c:904-943 | one event raises the window by at most the acked bytes, and none but a reinit lowers it before full bandwidth |
| `BbrTiming.ProbeRttLasts` | lsquic/libquic/src/lsquic_bbr.c:782-836 | PROBE_RTT is left only 200 ms after the flight first fell below its limit, and after a later round start |
| `BbrTiming.ConservationLasts` | lsquic/libquic/src/lsquic_bbr.c:503-535 | conservation ends only at an acked packet sent after it began |
| `BbrTiming.RecoveryEndsIff` | lsquic/libquic/src/lsquic_bbr.c:503-535 | recovery ends if and only if a loss-free ack names a packet sent after the last loss it saw |
| `BbrTiming.RecoveryStartsIff` | lsquic/libquic/src/lsquic_bbr.c:377-402 | over all runs: recovery starts if and only if an ack ends since whose beginning a loss was reported and bytes were acknowledged |
| `BbrTiming.LossesBetweenAcksAreNeverSeen` | lsquic/libquic/src/lsquic_bbr.c:377-402 | so a run with losses between acks only never enters recovery |
| `BbrTiming.ProbeRttEndsIff` | lsquic/libquic/src/lsquic_bbr.c:782-836 | PROBE_RTT is left at exactly the first ack 200 ms after the flight first fell below its limit, in or after a later round start |
| `BbrRounds.OpenGathers` | lsquic/libquic/src/lsquic_bbr.c:333-402 | over all runs an open ack holds exactly what the events since its beginning brought: samples in order, sums of bytes, the largest packet number |
| `BbrRounds.RoundStartsIff` | lsquic/libquic/src/lsquic_bbr.c:991-1010 | over all runs: a round starts if and only if bytes are acknowledged together with a packet sent after the last round, or recovery, began |
| `BbrBandwidth.EstimateAlways` | lsquic/libquic/src/lsquic_bbr.c:437-463 | in every state of a run the estimate is the maximum of the measurements from some round on |
| `BbrBandwidth.EstimateWasSampled` | lsquic/libquic/src/lsquic_bbr.c:437-463 | a positive estimate was sampled in the round that it names |
| `BbrBandwidth.EstimateFalls` | lsquic/libquic/src/lsquic_bbr.c:437-463 | over all runs: the estimate falls only at the end of an ack more than ten rounds after it was measured |
| `BbrBandwidth.EstimateCoversSamples` | lsquic/libquic/src/lsquic_bbr.c:437-463 | after an ack the estimate is no less than any of its samples that the application did not limit, and than the others unless the estimate above them just left the window |
| `BbrBandwidth.LimitedSamplesAreIgnored` | lsquic/libquic/src/lsquic_bbr.c:459-463 | samples that the application limited and that do not exceed the estimate leave the filter as it was |
| `BbrBandwidth.BandwidthIsLowerBound` | lsquic/libquic/src/lsquic_bbr.c:437-463 | over all runs: what the filter keeps of a round bounds the estimate from below until ten rounds later, or a reinit |
| `BbrBandwidth.EstimateLasts` | lsquic/libquic/src/lsquic_bbr.c:437-463 | so does each estimate, until ten rounds after it was measured |
| `BbrModes.ModeAfterAck` | lsquic/libquic/src/lsquic_bbr.c:437-500 | over all runs: how an ack moves the least rtt and the mode; PROBE_RTT is entered if and only if an rtt older than ten seconds is replaced, STARTUP ends with full bandwidth, DRAIN as soon as the flight fits |
| `BbrModes.LowerRttIsIgnoredIff` | lsquic/libquic/src/lsquic_bbr.c:471-496 | a lower rtt is ignored if and only if it ends ten seconds in which the application was idle |
| `BbrModes.MinRttHistory` | lsquic/libquic/src/lsquic_bbr.c:437-500 | over all runs the least rtt bounds all rtts sampled since the ack that its stamp names |
| `BbrModes.MinRttRises` | lsquic/libquic/src/lsquic_bbr.c:437-500 | it rises only ten seconds after that ack, to the least rtt of an ack, and only with a stay in PROBE_RTT |
| `BbrModes.FlagsAfterAck` | lsquic/libquic/src/lsquic_bbr.c:437-463 | the last sample says whether the application limits the flow; one sample that it did not limit is remembered |
| `BbrModes.LimitedAfterSend` | lsquic/libquic/src/lsquic_bbr.c:314-373 | a packet sent for want of data counts if and only if it leaves the window open |
| `BbrModes.FullBandwidthIff` | lsquic/libquic/src/lsquic_bbr.c:631-740 | over all runs: full bandwidth is declared, and STARTUP left, if and only if the estimate failed three checked rounds in a row to grow by a quarter |
| `BbrModes.CycleAfterAck` | lsquic/libquic/src/lsquic_bbr.c:571-619 | over all runs: the phases of PROBE_BW in their order, and exactly when each ends |
| `BbrSending.WindowAfterAck` | lsquic/libquic/src/lsquic_bbr.c:904-943 | over all runs: before full bandwidth an ack leaves exactly window plus acked bytes (at most 2000 segments) while below the target or below the initial window acked, afterwards exactly the smaller of that and the target; the target is stated by bandwidth, rtt and gain |
| `BbrSending.HeightAfterAck` | lsquic/libquic/src/lsquic_bbr.c:539-567 | what the target gains for bursts of acks is the largest excess of ten rounds |
| `BbrSending.PacingAfterAck` | lsquic/libquic/src/lsquic_bbr.c:841-899 | over all runs the pacing rate that an ack leaves: gain times bandwidth after full bandwidth; before, first the initial window in one rtt, then the larger of that product and the old rate |
| `BbrSending.PacingNeverFalls` | lsquic/libquic/src/lsquic_bbr.c:841-899 | before full bandwidth it never falls, unless a loss may slow it down |
| `BbrSending.RecoveryWindowAfterAck` | lsquic/libquic/src/lsquic_bbr.c:948-987 | over all runs the recovery window that an ack leaves, in numbers |
| `BbrSending.ReportedAlways` | lsquic/libquic/src/lsquic_bbr.c:752-777 | in every reachable state the window that the sender may use |
| `BbrRuns.StartsOver` | lsquic/libquic/src/lsquic_bbr.c:166-226 | a run starts, and a reinit starts over, in STARTUP with 32 segments and nothing known; recovery goes on |
| `Bbr.Controller.OnSent` | lsquic/libquic/src/lsquic_bbr.c:357-373 | the step of the run for a sent packet |
| `Bbr.Controller.OnBeginAck` | lsquic/libquic/src/lsquic_bbr.c:389-402 | the step for the start of an ack event |
| `Bbr.Controller.OnAck` | lsquic/libquic/src/lsquic_bbr.c:333-353 | the step for one acked packet |
| `Bbr.Controller.OnLost` | lsquic/libquic/src/lsquic_bbr.c:377-385 | the step for one lost packet |
| `Bbr.Controller.OnEndAck` | lsquic/libquic/src/lsquic_bbr.c:991-1049 | the step for the end of an ack event, through all its stages; what the step does is said by the run theorems |
| `Bbr.Controller.Reinit` | lsquic/libquic/src/lsquic_bbr.c:219-226 | the state after a reinit |
| `Bbr.Controller.GetCwnd` | lsquic/libquic/src/lsquic_bbr.c:762-777 | never below four segments |
| `Bbr.Controller.UpdateRecoveryState` | lsquic/libquic/src/lsquic_bbr.c:503-535 | the recovery states with the fall-through of the source |
| `Bbr.Controller.UpdateGainCyclePhase` | lsquic/libquic/src/lsquic_bbr.c:571-619 | the gain cycle, with the hold before draining to the target |
| `Bbr.Controller.MaybeEnterOrExitProbeRtt` | lsquic/libquic/src/lsquic_bbr.c:782-836 | entering, waiting and leaving |
| `Bbr.Controller.CalculateCwnd` | lsquic/libquic/src/lsquic_bbr.c:904-943 | the window after growth and clamping; BbrSending.WindowAfterAck says what it is |
| `Bbr.Controller.CalculateRecoveryWindow` | lsquic/libquic/src/lsquic_bbr.c:948-987 | the recovery window after loss and growth |
| `Attq.Queue.Swap` | lsquic/libquic/src/lsquic_attq.c:98-107 | swaps two places, keeps back-indices and members |
| `Attq.Queue.Add` | lsquic/libquic/src/lsquic_attq.c:111-154 | one more member; heap order and back-indices hold |
| `Attq.Queue.Heapify` | lsquic/libquic/src/lsquic_attq.c:177-203 | restores the order below one place, keeps the members |
| `Attq.Queue.Remove` | lsquic/libquic/src/lsquic_attq.c:207-238 | any member can go; order, back-indices and the other members stay |
| `Attq.Queue.Pop` | lsquic/libquic/src/lsquic_attq.c:158-173 | a member with the least time, if that lies before the cutoff |
| `Attq.Queue.DrainBefore` | lsquic/libquic/src/lsquic_engine.c:2112 | times come out in order, and exactly the members not before the cutoff stay |
| `Attq.Queue.Next` | lsquic/libquic/src/lsquic_attq.c:263-269 | a member with the least time |
| `Attq.Queue.CountBefore` | lsquic/libquic/src/lsquic_attq.c:242-259 | never too many, 0 if and only if none is due, all if and only if nothing due lies behind the last level counted |
| `Attq.UncountedElement` | lsquic/libquic/src/lsquic_attq.c:242-259 | an instance: a heap of six elements whose count is too low |
| `NalUnits.FindStart` | libmp4/libmp4/avc/mpeg4-annexbtomp4.c:34-44 | the first byte behind the next start code |
| `NalUnits.DetectFormat` | libmp4/libmp4/avc/mpeg4-annexbtomp4.c:78-99 | the width of the length fields, or a start-code stream; lengths of 2^31 and more count as malformed |
| `NalUnits.StrideAgreesIff` | libmp4/libmp4/avc/mpeg4-annexbtomp4.c:48-72 | the sign-extended arithmetic of the source agrees with this if and only if the length is below 2^32 - w |
| `NalUnits.NeverAdvances` | libmp4/libmp4/avc/mpeg4-annexbtomp4.c:61-75 | an input on which the loop of the source does not end |
| `NalUnits.SplitAnnexb` | libmp4/libmp4/avc/mpeg4-annexbtomp4.c:123-162 | the units between start codes, without trailing zeros |
| `NalUnits.SplitAvcc` | libmp4/libmp4/avc/mpeg4-annexbtomp4.c:101-120 | the units behind length fields |
| `NalUnits.AnnexbRoundTrip` | libmp4/libmp4/avc/mpeg4-annexbtomp4.c:123-162 | units joined by start codes are split into the same units |
| `NalUnits.AvccIsDetectedIff` | libmp4/libmp4/avc/mpeg4-annexbtomp4.c:78-99 | a length-prefixed stream is recognised if and only if neither its first nor its last unit is a single byte |
| `NalUnits.AvccRoundTrip` | libmp4/libmp4/avc/mpeg4-annexbtomp4.c:101-120 | recognised length-prefixed units are split into the same units |
| `ParamArena.ReplaceKeeps` | libmp4/libmp4/avc/mpeg4-annexbtomp4.c:186-203 | replacing a set moves the others and changes none; the slices still tile the used bytes |
| `ParamArena.AppendKeeps` | libmp4/libmp4/avc/mpeg4-annexbtomp4.c:245-259 | appending a set changes no other; the slices still tile the used bytes |
| `ParamStore.SpsUpdatesMap` | libmp4/libmp4/avc/mpeg4-annexbtomp4.c:205-260 | an update of the map from ids to sets, or nothing |
| `ParamStore.PpsUpdatesMap` | libmp4/libmp4/avc/mpeg4-annexbtomp4.c:262-333 | the same, except that the oldest set may have to go |
| `ParamStore.SpsAnswer` | libmp4/libmp4/avc/mpeg4-annexbtomp4.c:205-260 | an sps is turned down if and only if it is too short, does not fit, or is the 33rd; the answer is 1 if and only if the sets change |
| `ParamStore.PpsAnswer` | libmp4/libmp4/avc/mpeg4-annexbtomp4.c:262-333 | a pps is turned down if and only if it is too short, does not fit, or is the 256th with at most 16 sps |
| `ParamStore.UnitChanges` | libmp4/libmp4/avc/mpeg4-annexbtomp4.c:335-362 | a unit changes the sets of its own type only, and profile and level exactly if it changes the sps or is the only one |
| `ParamStore.Store.SpsCopy` | libmp4/libmp4/avc/mpeg4-annexbtomp4.c:205-260 | the store holds the new list of sets, all bytes in place |
| `ParamStore.Store.PpsCopy` | libmp4/libmp4/avc/mpeg4-annexbtomp4.c:262-333 | the store holds the new list of sets, all bytes in place |
| `ParamStore.Store.Remove` | libmp4/libmp4/avc/mpeg4-annexbtomp4.c:186-203 | the bytes of a set are taken out, the slices behind follow |
| `ParamStore.Store.Update` | libmp4/libmp4/avc/mpeg4-annexbtomp4.c:335-361 | dispatch on the unit type |
| `AvcConfig.Save` | libmp4/libmp4/avc/mpeg4-avc.c:114-175 | the record, or failure exactly when it does not fit |
| `AvcConfig.Load` | libmp4/libmp4/avc/mpeg4-avc.c:47-112 | the sets in the record, tiled into the arena |
| `AvcConfig.RecordRoundTripIff` | libmp4/libmp4/avc/mpeg4-avc.c:47-175 | a saved record gives all sets back if and only if there are at most 31 sps and it does not end in an empty pps |
| `AvcConfig.RecordRoundTrip` | libmp4/libmp4/avc/mpeg4-avc.c:47-175 | then the header fields come back, too |
| `AvcConfig.TailReads` | libmp4/libmp4/avc/mpeg4-avc.c:159-173 | the three values behind the record read back, for exactly the profiles that have them |
| `AvcConfig.StoreRoundTrip` | libmp4/libmp4/avc/mpeg4-avc.c:47-175 | what one store saves another loads, if and only if that holds of it |
| `AvcConfig.ThirtyTwoSpsAreLost` | libmp4/libmp4/avc/mpeg4-avc.c:134 | with 32 sps the five-bit count is 0 and none comes back |
| `AvcConvert.AnnexbToMp4` | libmp4/libmp4/avc/mpeg4-annexbtomp4.c:407-422 | the output bytes, the frame kind (1 or 2 by the last slice, 0 without one) and the change flag (1 if and only if some unit changed the stored sets) |
| `AvcConvert.PackResult` | libmp4/libmp4/avc/mpeg4-annexbtomp4.c:363-405 | success if and only if the output fits and no set is turned down; then exactly the units behind their lengths |
| `AvcConvert.IdsStayDistinct` | libmp4/libmp4/avc/mpeg4-annexbtomp4.c:363-422 | ids stay distinct whatever is converted |
| `AvcConvert.LastSetsWin` | libmp4/libmp4/avc/mpeg4-annexbtomp4.c:335-400 | after any stream of which no set is turned down or pushed out, the store holds under each id the last set of the stream with that id |
| `AvcConvert.EitherFormGivesTheSameUnits` | libmp4/libmp4/avc/mpeg4-annexbtomp4.c:407-422 | the same units come from start codes and from lengths if and only if all of them are single bytes or neither the first nor the last is (the only-if for units below 2^24 bytes) |
| `UnitForms.StartCodesInLengths` | libmp4/libmp4/avc/mpeg4-annexbtomp4.c:78-162 | length-prefixed units split at start codes come back if and only if all are single bytes |
| `UnitForms.LengthsSurviveIff` | libmp4/libmp4/avc/mpeg4-annexbtomp4.c:78-162 | what the splitter makes of length-prefixed units is the units if and only if all are single bytes or neither the first nor the last is |
| `UnitForms.LongUnitSurvives` | libmp4/libmp4/avc/mpeg4-annexbtomp4.c:78-162 | from 2^24 + 1 bytes on the only-if fails: a long unit and a single byte come back |
| `UnitForms.FourUnitsSurvive` | libmp4/libmp4/avc/mpeg4-annexbtomp4.c:78-162 | so it does for units behind a single byte: four of them come back, each found a few bytes late |
| `AvcConvert.Mp4ToAnnexb` | libmp4/libmp4/avc/mpeg4-mp4toannexb.c:102-139 | the output bytes and their number |
| `AvcConvert.UnpackResult` | libmp4/libmp4/avc/mpeg4-mp4toannexb.c:37-100 | units behind start codes, stored sets first exactly when an IDR slice precedes any set |
| `AvcConvert.FramesSurviveIff` | libmp4/libmp4/avc/mpeg4-mp4toannexb.c:102-139 | length-prefixed units are read as they are if and only if only single bytes follow the first single byte (the only-if for units below 2^24 bytes) |
| `AvcConvert.LateUnitsSurvive` | libmp4/libmp4/avc/mpeg4-mp4toannexb.c:114-126 | from 2^24 + 1 bytes on that only-if fails: four units, the first a single byte and the others not, are read as they are |
| `AvcConvert.StartCodesKeepTheUnits` | libmp4/libmp4/avc/mpeg4-mp4toannexb.c:102-139 | then splitting the output gives the units again, behind the stored sets where they were needed |
| `AvcConvert.SingleByteSwallows` | libmp4/libmp4/avc/mpeg4-mp4toannexb.c:114-126 | a single byte in front swallows all that follows, length fields included, unless a start code stops it |
| `AvcConvert.SingleByteSwallowsTheRest` | libmp4/libmp4/avc/mpeg4-mp4toannexb.c:114-126 | an instance: a slice disappears in the one-byte unit before it |
| `FileCache.Cache.CacheWrite` | libmp4/libmp4/mp4-io.c:104-145 | the exact new state; the file after the write if nothing was read ahead |
| `FileCache.WriteReads` | libmp4/libmp4/mp4-io.c:34-50 | a write to the plain file is read back from its place, all other bytes stay, a hole is zero |
| `FileCache.WritesSurviveIff` | libmp4/libmp4/mp4-io.c:104-171 | after a write and a seek that moves, the disk is the file with the write, for every write, if and only if nothing was read ahead |
| `FileCache.WriteAfterRead` | libmp4/libmp4/mp4-io.c:104-171 | one state in which a byte is lost and two bytes come out with stale ones in front |
| `FileCache.Cache.CacheSeek` | libmp4/libmp4/mp4-io.c:147-171 | a seek that moves empties the buffer, in any state; disk and logical file then agree |
| `FileCache.Cache.CacheTell` | libmp4/libmp4/mp4-io.c:173-185 | the position of the logical file |
| `FileCache.Cache.CacheRead` | libmp4/libmp4/mp4-io.c:62-102 | the bytes the plain file would deliver |
| `FileCache.Replay` | libmp4/libmp4/mp4-io.c:34-185 | over any proper run of writes, reads, seeks and tells the cache cannot be told from the file |
| `PsBits.BitBuffer.BitsWrite` | mpeg-ps/mpeg-ps-28181/utils.c:59-80 | appends the bits of the value and changes no earlier bit |
| `PsBits.BitBuffer.BitsRead` | mpeg-ps/mpeg-ps-28181/utils.c:95-126 | the value of the next bits |
| `PsBits.FieldsReadBack` | mpeg-ps/mpeg-ps-28181/utils.c:59-126 | reading undoes writing for any list of fields |
| `PsBits.CrcEncode` | mpeg-ps/mpeg-ps-28181/utils.c:9-32 | the register after all bits |
| `PsBits.ChecksumOfChecked` | mpeg-ps/mpeg-ps-28181/utils.c:9-32 | data followed by its own checksum has the checksum 0 |
| `PsHeaders.MakePackHeader` | mpeg-ps/mpeg-ps-28181/psmux.c:32-63 | the fields of that header, its clock reference included |
| `PsHeaders.MakeSysHeader` | mpeg-ps/mpeg-ps-28181/psmux.c:70-117 | the fields of the system header, one entry for each stream |
| `PsHeaders.MakePsmHeader` | mpeg-ps/mpeg-ps-28181/psmux.c:124-169 | the fields of the stream map with its checksum |
| `PsHeaders.MakePesHeader` | mpeg-ps/mpeg-ps-28181/psmux.c:180-234 | the fields of the PES header |
| `PsHeaders.PackHeaderReads` | mpeg-ps/mpeg-ps-28181/psmux.c:32-63 | the clock base reads back as the time modulo 2^33 and the extension as its low nine bits |
| `PsHeaders.PesHeaderReads` | mpeg-ps/mpeg-ps-28181/psmux.c:180-234 | both 33-bit times read back, and the length field counts what follows it, in 16 bits |
| `PsHeaders.SysHeaderReads` | mpeg-ps/mpeg-ps-28181/psmux.c:70-117 | its length field counts what follows it for any stream count |
| `PsHeaders.SystemListsStreams` | mpeg-ps/mpeg-ps-28181/psmux.c:70-117 | a reader of the system header finds each stream id and the bound of its buffer |
| `PsHeaders.PsmHeaderReads` | mpeg-ps/mpeg-ps-28181/psmux.c:124-169 | so do both of its, and the bytes with their checksum have the checksum 0 |
| `PsHeaders.MapListsStreams` | mpeg-ps/mpeg-ps-28181/psmux.c:124-169 | a reader of the map finds each stream under its place, with type and id, audio first |
| `PsMux.PayloadsAreTheFrame` | mpeg-ps/mpeg-ps-28181/psmux.c:332-359 | the payloads of the packets put together are the frame, for its stream and no other |
| `PsMux.PacketsAre` | mpeg-ps/mpeg-ps-28181/psmux.c:332-359 | packet i carries id, length, both times and the bytes of the frame from 65485 i on |
| `PsMux.PacketsCount` | mpeg-ps/mpeg-ps-28181/psmux.c:332-359 | a frame takes 19 bytes more for each 65485 bytes begun |
| `PsMux.FrameDelivers` | mpeg-ps/mpeg-ps-28181/psmux.c:332-359 | a demultiplexer skips the headers of a whole frame by what they say and delivers its bytes |
| `PsMux.FrameLayout` | mpeg-ps/mpeg-ps-28181/psmux.c:244-270 | a frame starts with a pack header that carries its time; an I frame repeats system header and map behind it |
| `PsMux.StreamsComeBack` | mpeg-ps/mpeg-ps-28181/psmux.c:332-359 | whatever was muxed, each stream comes back, all its frames in order |
| `PsMux.Mux.WriteFrame` | mpeg-ps/mpeg-ps-28181/psmux.c:332-359 | headers, then packets that carry the whole frame; the streams so far stay readable |
| `MovReader.ReadOneTrak` | libmp4/libmp4/source/mov-reader.c:108-130 | a written track box gives a track that was expanded from exactly the written tables |
| `MovReader.ReadMoov` | libmp4/libmp4/source/mov-reader.c:288-392 | one track for each trak, in order; the other boxes are skipped |
| `MovReader.FinishedTiles` | libmp4/libmp4/source/mov-reader.c:297-331 | in a finished file every box is announced by its header, in 32 or 64 bits, and ends where the next one starts |
| `MovReader.ReadRoot` | libmp4/libmp4/source/mov-reader.c:288-392 | from the first byte through all top-level boxes up to mdat, where it stops at the end of the file, with all tracks read |
| `MovReader.FinishedIsLaid` | libmp4/libmp4/source/mov-writer.c:237-311 | ftyp, free, moov and mdat tile the finished file |
| `MovReader.PlayedIsSame` | libmp4/libmp4/source/mov-reader.c:108-130 | bytes, key flags, distances in time (if and only if the gaps fit) and composition offsets of a track are those that were handed over |
| `MovReader.TimesAsGiven` | libmp4/libmp4/source/mov-writer.c:363-408 | decoded times against the times handed over: distances if and only if the gaps of the scaled times fit, composition offsets up to one constant |
| `MovReader.FinishAndRead` | libmp4/libmp4/source/mov-writer.c:223-320 | end to end: after any recording, finishing and then reading the file gives every track with samples, with the times, key flags and bytes that were handed to the writer |
| `FastStart.WriteMoovMoved` | libmp4/libmp4/source/mov-writer.c:273-308 | moov ends up behind mdat as the tracks moved by its own final size have it; the rewrite is longer by exactly the growth |
| `LiveReader.UpdatedIsLaid` | libmp4/libmp4/source/mov-writer.c:541-587 | after an update ftyp, pwdt, moov, skip and mdat lie as a reader expects them |
| `LiveReader.UpdateAndRead` | libmp4/libmp4/source/mov-writer.c:541-587 | while recording goes on: a reader that opens the file after an update gets every track with samples, with the times, key flags and bytes handed over so far |
| `Bbr.Controller.ObserveRtt` | lsquic/libquic/src/lsquic_bbr.c:205-212 | the step for new rtt statistics |
| `PsMux.Mux.AddVideoStream` | mpeg-ps/mpeg-ps-28181/psmux.c:292-303 | the next video id, and its entry in the list of streams |
| `PsMux.Mux.AddAudioStream` | mpeg-ps/mpeg-ps-28181/psmux.c:305-316 | the next audio id, and its entry in the list of streams |

## Left out

- MP4 boxes with a fixed layout (ftyp, mvhd, tkhd, mdhd, hdlr, vmhd, dinf, stsd, udta and what they hold) are opaque leaves of known bytes; the reader skips them.
- TrackReader.ReadBoxes: boxes with 64-bit sizes, size 0 and truncated boxes below a track are not modelled; the walk is stated for well-formed boxes.
- MovReader.ReadRoot: files laid out by this writer, finished or with a reserved hole; a box of size 0, which reaches to the end of the file, is not modelled; every trak makes a track of its own, where the source looks it up by the number in tkhd.
- MovReader.ReadMoov: a moov as this writer lays it out, and so for each trak in MovReader.ReadOneTrak; foreign boxes and truncated ones are not modelled.
- MovReader.ReadOneTrak: a trak as this writer lays it out.
- MovStream.Stream.Seek: targets up to the end of the file; mov_buffer_seek accepts positions behind it, which no modelled operation asks for.
- Timeline.ApplyCtts: offset tables whose shifted values stay in 32 bits; the int32 arithmetic of the source overflows on others.
- MovReader.FinishAndRead: for tracks with fewer than 2^32 - 1 samples, not all of them empty, whose composition offsets stay within 32 bits; outside of these the tables themselves lose values.
- The mp4 tree, an older copy of the same algorithms, is not modelled a second time.
- I/O errors, failing allocation, mutexes, retries and log output: every operation succeeds.
- MovWriter.MovWriter.Write: the data callback is modelled by the block it appended; the growth of the sample array in steps of 1024 is kept, its failure is not.
- MovWriter.MovWriter.constructor: the reserved hole is filled with zero bytes; what the source leaves there before the first update depends on its scratch buffer.
- Recording.WriteMoovEx: a moov of exactly 8 + MOOV_LEN bytes, on which the assertion fails, and one that does not fit a 32-bit size.
- Recording.UpdateMoov: the same sizes of moov, and an mdat whose size the assertion turns down.
- Recording.UpdatedTilesIff: the same sizes of moov.
- Recording.UpdateFreeData: places behind the end of the file.
- Recording.Refresh: the new durations only show in fixed-layout boxes, so they are parameters.
- TrackRead.ReadTrak: a second stsz, stco or stts in one track is asserted away in the source and replaces the first here; the source's checks inside mov_apply_stco are met by every written track and required of others.
- Elst.WriteElst: the edit plan (times already converted to movie time) is a value; products are unbounded integers, where the source multiplies in 64 bits.
- Seek.StssSeek: every entry of the list names a sample, as mov_index_build makes it; the source checks only the entries it meets and not their neighbours.
- Seek.ReaderSeek: the branch for fragment indexes (mov_fragment_seek), whose index and choice need not agree.
- Fmp4Writer.Fmp4Writer.Write: a block is shorter than 2^32 bytes, since with a longer one the interleaving loop of the source never ends; the first dts is not INT64_MIN, which the source uses as a mark.
- Fmp4Writer.Fmp4Writer.WriteFragment: the boxes in front of the first moof (ftyp, free, moov with empty tables) are opaque bytes, the segment mode with styp and sidx and the mfra index at the end are not modelled, and the moof has to fit its 32-bit size.
- TrackFragmentReader.ReadTrun: truncated boxes; a payload has as many words as its flags announce.
- TrackFragmentReader.ReadHeader: truncated boxes.
- TrackFragmentReader.ReadTfdt: truncated boxes.
- FragmentReader.FragmentReader.ReadTfhd: truncated boxes.
- FragmentReader.FragmentReader.ReadMoof: truncated boxes, and boxes that this writer does not put into moof.
- BBR arithmetic: gains are real numbers, overflow of byte counts is not modelled, and the bandwidth sampler and the rtt statistics are parameters of the events. The flags EXIT_STARTUP_ON_LOSS and FLEXIBLE_APP_LIMITED stay clear, as the source leaves them.
- BbrBandwidth.BandwidthIsLowerBound: over runs the condition is shown to suffice; that nothing weaker would do is shown for the filter itself, by MinMax.LowerBoundIff.
- AvcConvert.LastSetsWin: for streams of which no set is turned down and no pps pushed out; ParamStore.SpsAnswer and ParamStore.PpsAnswer say when that happens.
- lsquic_bbr_pacing_rate: only reports what the state holds.
- Attq.Queue.Add: growth of the heap array always succeeds; a connection is in the queue at most once.
- NalUnits.DetectFormat: lengths of 2^31 and more count as malformed. The source differs for the last few lengths below 2^32, where it wraps around and on one of which it never ends; NalUnits.StrideAgreesIff says exactly when.
- NalUnits.Split: empty units are not handed on; the source asserts that there are none.
- ParamStore.Store.PpsCopy: when the oldest set is replaced the new one fits, which the source does not check.
- ParamStore.Store.Update: the same.
- AvcConvert.AnnexbToMp4: the same, for every set on the way.
- UnitForms.LengthsSurviveIff: units below 2^24 bytes; UnitForms.LongUnitSurvives shows that the condition changes there.
- UnitForms.StartCodesInLengths: units below 2^24 bytes, beyond which UnitForms.FourUnitsSurvive is an exception.
- AvcConvert.FramesSurviveIff: the only-if for units below 2^24 bytes; AvcConvert.LateUnitsSurvive shows that it fails beyond.
- ParamStore ids are an uninterpreted function of a set's bytes; the exponential Golomb code behind it is not modelled.
- AvcConfig.Load: after a truncated record the structure holds the sets loaded so far, which the caller then clears.
- AvcConvert.Mp4ToAnnexb: the stored sets fit the output and do not themselves begin with a start code; input and output do not overlap.
- FileCache.Cache.CacheRead: nothing may wait to be written, as the source asserts at the start of its loop; compiled without assertions it would drop the pending bytes.
- PsMux.Mux.WriteFrame: at most eight streams of a kind, as the arrays of the source have; private streams and the file of psmux_alloc are left out.
- QUIC beyond the controller and the queue, the block-buffer glue, the TCP and ping programs and the AAC helpers: sockets, callbacks and code that only adds easy members.
