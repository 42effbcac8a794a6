# RealWar asset loaders and texture passes, modelled in Dafny

This project models the decoding core of the RealWar asset viewer and proves
properties of it. The core is these pieces:

- **Rle.Decode16**, the 16-bit run-length codec shared by TGC and SPT images.
  Each control word either copies the next n words or repeats the next word n
  times; the word 0xFFFF ends the stream.
- **Kvag.Read** and its two 4-bit ADPCM decoders, mono and stereo. Both use the
  IMA index and step-size tables.
- **Tgc.Read**, **Spt.Read** and **S16.Read**: the image and sprite loaders.
- **Bse.Read**, with **ReadMagic** and **AssertMagic**: the chunked mesh loader.
- **ImageUtils.Argb1555ToRgba8888**.
- **TexturePostProcessing**:
  - MaskOutBlackPixels;
  - ApplyCammo and ApplyCammoTile, which blend a camouflage texture into a unit texture tile by tile;
  - SkipPixelForCammo.

How the model is built:

- **Modules.** One module per source class. `Bytes` holds the fixed-width
  integers, the little-endian readers and the stream cursor. `Argb1555` holds
  the pixel format.
- **The cursor.** .NET's MemoryStream wrapped in a BinaryReader is the class
  `Bytes.Reader`. Its byte array is fixed and its position moves.
- **Exceptions.** They become values of `Bytes.Error`:
  - EndOfStream for a read past the end;
  - IndexOutOfRange for a store past an array;
  - ArgumentOutOfRange for a stream position, offset or segment index out of range;
  - Argument for an array segment that does not fit its array;
  - Overflow for an array allocated with a negative length;
  - BadMagic for a chunk tag that does not match.
- **Loaders.** Each loader is two members:
  - a pure function over explicit offsets (`ReadSpec`, `FrameSpec`, `Decode16Spec`, `MonoSpec`, ...);
  - a method with the source's loops over arrays, whose contract is that it computes that function.

  The lemmas state the properties of the function: layouts, round trips, error cases.
- **Texture passes.** They work in place on an `array<u16>` and are specified
  pixel by pixel against pure functions.

Where the code and its documentation part ways, the model follows the code:

- **KVAG mono.** The decoder tests for the end of the stream before every
  nibble. So it never decodes the low nibble of the last byte: m payload bytes
  give 2m - 1 samples, and the last slot of the 2 * dataSize output stays 0.
- **KVAG zero nibble.** A zero nibble does not leave the predictor unchanged
  in general. Its difference is step >> 3, which is 0 only at index 0 (step 7),
  so the predictor stays only at index 0 or at the positive clamp.
- **TGC trailer.** The RLE stream is decoded out of the byte array. The reader
  is therefore still at offset 4 afterwards, and the "skip the end marker" read
  takes bytes 4..7. The trailer is the u32 at offset 8, not the word after the
  stream.
- **BSE tag errors.** A mismatched tag is reported at the offset where it began.
  For the VERT tag of a well-formed header that offset is 16 (4 for the tag
  and 12 for the three counts).
- **BSE SCAL probe.** The SCAL probe consumes its four bytes even when they are
  not SCAL. An AUVS section placed directly after the frames is skipped that
  way, unless the four bytes after its tag are AUVS too (`Bse.AuvsNeedsScal`).
- **BSE tag comparison.** Tags are compared as raw bytes, and floats are kept as
  their raw 32 bits.
- **MaskOutBlackPixels.** It changes only the pixel 0x0000, which becomes
  0x8000. A black pixel with the alpha bit already set is left as it is.

## Model

| member | source | states |
|---|---|---|
| Bytes.Reader.Seek | RealWar.Viewer/Loaders/Spt.cs:41 | Setting Position succeeds and moves the cursor exactly up to int.MaxValue; above that it fails with ArgumentOutOfRange and the cursor stays. |
| Bytes.Reader.ReadU8 | RealWar.Viewer/Loaders/Kvag.cs:88 | A byte read returns the byte at the cursor and advances by 1, or fails with EndOfStream at the end of the stream. |
| Bytes.Reader.ReadU16 | RealWar.Viewer/Loaders/Rle.cs:22 | A u16 read returns the little-endian word at the cursor and advances by 2, or fails with EndOfStream when fewer than 2 bytes remain. |
| Bytes.Reader.ReadU32 | RealWar.Viewer/Loaders/Tgc.cs:34 | A u32 read returns the little-endian word at the cursor and advances by 4, or fails with EndOfStream when fewer than 4 bytes remain. |
| Bytes.Reader.ReadTag | RealWar.Viewer/Loaders/Bse.cs:257-260 | ReadChars(4) on the cursor returns the bytes TagAt gives at its position and advances by exactly as many bytes as it returned; it never fails. |
| Bytes.TagAt | RealWar.Viewer/Loaders/Bse.cs:257-260 | ReadChars(4) yields the four bytes at the position when they are there, only the bytes left when the stream ends sooner, and never more than four. |
| Argb1555.Pack | RealWar.Viewer/PostProcessing/TexturePostProcessing.cs:27 | Packing alpha, red, green and blue gives a pixel from which each of the four fields reads back unchanged. |
| Argb1555.Unpack | RealWar.Viewer/PostProcessing/TexturePostProcessing.cs:19-22 | The four fields of any pixel are in range and pack back into exactly that pixel. |
| Rle.Decode16 | RealWar.Viewer/Loaders/Rle.cs:12-46 | Decoding into the array succeeds exactly when the decoder function does, with the same error otherwise; on success the array holds exactly the function's result for its old contents. |
| Rle.DecodeRun | RealWar.Viewer/Loaders/Rle.cs:21-44 | One turn of the loop: the terminator stops it with the buffer unchanged; otherwise the run is written and the next write index returned, as one decoder step says, including its errors. |
| Rle.CopyWords | RealWar.Viewer/Loaders/Rle.cs:33-35 | A copy run of n words writes the next n stream words from index i on when both input and room suffice; otherwise EndOfStream if the input runs out first, IndexOutOfRange if the room does. |
| Rle.FillWords | RealWar.Viewer/Loaders/Rle.cs:39-43 | A repeat run writes the word n times from index i on when there is room, and fails with IndexOutOfRange when there is not. |
| Rle.DecodeStep | RealWar.Viewer/Loaders/Rle.cs:21-44 | A turn that goes on consumes input (the next control word lies further on) and leaves the write index inside the buffer, so the loop terminates. |
| Rle.DecodeIsFlattenedRuns | RealWar.Viewer/Loaders/Rle.cs:19-45 | Decoding succeeds exactly when the stream parses into whole runs whose words fit from index i on, and then the buffer holds the concatenated runs there and its old words elsewhere. |
| Rle.DecodeAgrees | RealWar.Viewer/Loaders/Rle.cs:19-45 | The decoder and the independent run parser agree on every input, as one equation over optional results. |
| Rle.Decode16Length | RealWar.Viewer/Loaders/Rle.cs:12-46 | Decoding never changes the length of the output buffer. |
| Rle.ParseEncoded | RealWar.Viewer/Loaders/Rle.cs:28-36 | A stream written by the reference literal-run encoder parses into runs that flatten back to the encoded words. |
| Rle.DecodeEncoded | RealWar.Viewer/Loaders/Rle.cs:12-46 | Round trip: decoding an encoded image into a buffer with room for it writes exactly its words, keeps the rest of the buffer, and ignores whatever follows the terminator. |
| Rle.TerminatorStops | RealWar.Viewer/Loaders/Rle.cs:24-26 | After a 0xFFFF control word decoding stops with the buffer as it is, whatever bytes follow. |
| Rle.OffsetPrefixIgnored | RealWar.Viewer/Loaders/Rle.cs:14 | Bytes before inOffset are never read: decoding at an offset equals decoding the suffix from 0. |
| Rle.CopyExample | RealWar.Viewer/Loaders/Rle.cs:31-36 | Control word 0x8002, two words and the terminator decode to those two words. |
| Rle.RepeatExample | RealWar.Viewer/Loaders/Rle.cs:37-44 | Control word 0x0003, one word and the terminator decode to that word three times. |
| Rle.UnterminatedExamples | RealWar.Viewer/Loaders/Rle.cs:19-45 | A stream may end without a terminator; an empty repeat run writes nothing; a run longer than the room left is IndexOutOfRange; a copy run cut short by the input is EndOfStream. |
| Tgc.PixelCount | RealWar.Viewer/Loaders/Tgc.cs:30 | width * height as a C# int is non-negative exactly when the product is below 2^31, and is then the product. |
| Tgc.ProductFits | RealWar.Viewer/Loaders/Tgc.cs:27-30 | The product of two u16 dimensions lies in [0, 2^32). |
| Tgc.Read | RealWar.Viewer/Loaders/Tgc.cs:22-37 | Reading the width, height, RLE pixels, end marker and trailer through the stream computes exactly the file's decoding function. |
| Tgc.ReadFields | RealWar.Viewer/Loaders/Tgc.cs:22-37 | A read succeeds exactly when the file has 12 bytes, width * height < 2^31 and the RLE stream from offset 4 decodes into width * height zeroed words; then the fields are the u16s at 0 and 2, the u32 at 8 and exactly those decoded pixels. |
| Spt.FramesSpec | RealWar.Viewer/Loaders/Spt.cs:38-59 | Reading a table of frames yields one frame per offset, frame k being the frame at offset k. |
| Spt.Read | RealWar.Viewer/Loaders/Spt.cs:20-62 | The header, offset table and frame loops compute exactly the file's decoding function. |
| Spt.ReadFrames | RealWar.Viewer/Loaders/Spt.cs:37-59 | The frame loop computes the table of frames, failing with the error of the first frame that fails. |
| Spt.ReadFrame | RealWar.Viewer/Loaders/Spt.cs:40-58 | One frame: the seek, width, height and pixels (RLE or raw words) as the frame function says. |
| Spt.FirstFailure | RealWar.Viewer/Loaders/Spt.cs:38-59 | When frame i is the first that fails, the whole read fails with that frame's error. |
| Spt.ReadShape | RealWar.Viewer/Loaders/Spt.cs:26-59 | A successful read has exactly header & 0x3FFFFFFF frames, frame k read at the k-th table offset with the header's RLE bit, and equal offsets give equal frames. |
| Spt.FrameShape | RealWar.Viewer/Loaders/Spt.cs:43-55 | A frame holds the u32 width and height at its offset and width * height (mod 2^32) pixels: the RLE stream from offset + 8 decoded into zeros, or the raw words from offset + 8. |
| Spt.Bit30Ignored | RealWar.Viewer/Loaders/Spt.cs:27-28 | Header bit 30 changes neither the frame count nor the RLE flag. |
| S16.FramesSpec | RealWar.Viewer/Loaders/S16.cs:45-75 | Reading a table of frames yields one frame per offset, frame k being the frame at offset k. |
| S16.Read | RealWar.Viewer/Loaders/S16.cs:28-78 | The header, offset table and frame loops compute exactly the file's decoding function. |
| S16.ReadFrames | RealWar.Viewer/Loaders/S16.cs:44-75 | The frame loop computes the table of frames, failing with the error of the first frame that fails. |
| S16.ReadFrame | RealWar.Viewer/Loaders/S16.cs:48-74 | One frame: the seek, width, height, palette, index plane and alpha plane as the frame function says. |
| S16.ReadPalette | RealWar.Viewer/Loaders/S16.cs:56-60 | The palette loop reads count little-endian words from the cursor, or fails with EndOfStream. |
| S16.ReadBytes | RealWar.Viewer/Loaders/S16.cs:63-72 | The index and alpha loops read count bytes from the cursor, or fail with EndOfStream. |
| S16.FirstFailure | RealWar.Viewer/Loaders/S16.cs:45-75 | When frame i is the first that fails, the whole read fails with that frame's error. |
| S16.ReadShape | RealWar.Viewer/Loaders/S16.cs:34-75 | A successful read has exactly header & 0x3FFFFFFF frames, frame k read at the k-th table offset. |
| S16.FrameShape | RealWar.Viewer/Loaders/S16.cs:52-74 | A frame reads exactly when its 10 + 2 * paletteLength + 2 * width * height bytes fit; it then has paletteLength palette words and one index byte and one alpha byte per pixel, the alpha plane right after the indices. |
| Kvag.DecodeNibble | RealWar.Viewer/Loaders/Kvag.cs:92-114 | One nibble keeps the channel valid: the index in [0, 88], the predictor a 16-bit sample, the step non-negative. |
| Kvag.Samples | RealWar.Viewer/Loaders/Kvag.cs:79-116 | A channel emits one sample per nibble. |
| Kvag.MonoNibbles | RealWar.Viewer/Loaders/Kvag.cs:79-93 | The mono decoder takes 2m - 1 nibbles from m bytes: the low nibble of the last byte is never reached. |
| Kvag.Interleave | RealWar.Viewer/Loaders/Kvag.cs:178-179 | Interleaving two channels gives twice as many samples. |
| Kvag.DecodeStep | RealWar.Viewer/Loaders/Kvag.cs:95-114 | The loop body takes a channel from state k of its trace to state k + 1, which is valid. |
| Kvag.AdpcmDecompressMono | RealWar.Viewer/Loaders/Kvag.cs:68-119 | The mono decoder computes exactly the mono function of the payload: the channel's samples in a zeroed array of 2 * dataSize, failing when they do not fit. |
| Kvag.AdpcmDecompressStereo | RealWar.Viewer/Loaders/Kvag.cs:121-183 | The stereo decoder computes exactly the interleaved samples of the low-nibble (left) and high-nibble (right) channels in a zeroed array of 2 * dataSize, failing when they do not fit. |
| Kvag.Read | RealWar.Viewer/Loaders/Kvag.cs:35-66 | The header or headerless path computes exactly the file's decoding function. |
| Kvag.LookupIndex | RealWar.Viewer/Loaders/Kvag.cs:114 | The step lookup is the table entry at the index. |
| Kvag.TraceOf | RealWar.Viewer/Loaders/Kvag.cs:79-116 | Every nibble stream has a trace of channel states, each valid and each the decoding of the previous one. |
| Kvag.TraceSample | RealWar.Viewer/Loaders/Kvag.cs:112-115 | Sample k is the predictor of trace state k + 1. |
| Kvag.MonoNibblePair | RealWar.Viewer/Loaders/Kvag.cs:82-92 | Byte j gives nibble 2j (its high nibble) and, if decoded, nibble 2j + 1 (its low nibble). |
| Kvag.InterleaveAt | RealWar.Viewer/Loaders/Kvag.cs:178-179 | Sample 2k is the left channel's k-th sample and 2k + 1 the right channel's. |
| Kvag.OutputLengthEven | RealWar.Viewer/Loaders/Kvag.cs:70 | The output length 2 * dataSize, wrapped to 32 bits, is even, so a stereo pair never straddles the end. |
| Kvag.StepSizesIncrease | RealWar.Viewer/Loaders/Kvag.cs:17-33 | The 89 step sizes are strictly increasing. |
| Kvag.StepFollowsIndex | RealWar.Viewer/Loaders/Kvag.cs:95-114 | After any nibble the step is the table entry of the new index. |
| Kvag.ZeroNibbleAtRest | RealWar.Viewer/Loaders/Kvag.cs:72-114 | From the initial state a zero nibble leaves the channel exactly as it was. |
| Kvag.ZeroNibble | RealWar.Viewer/Loaders/Kvag.cs:95-112 | A zero nibble keeps the predictor exactly when the index is 0 or the predictor is at the top clamp. |
| Kvag.StepSizesAtLeast8 | RealWar.Viewer/Loaders/Kvag.cs:17-33 | Every step size past the first is at least 8, so step >> 3 is positive there. |
| Kvag.Silence | RealWar.Viewer/Loaders/Kvag.cs:72-116 | A run of zero nibbles from the initial state decodes to silence. |
| Kvag.MonoSilence | RealWar.Viewer/Loaders/Kvag.cs:68-119 | An all-zero mono payload decodes to all-zero samples. |
| Kvag.StereoSilence | RealWar.Viewer/Loaders/Kvag.cs:121-183 | An all-zero stereo payload decodes to 2m zero samples. |
| Kvag.FitLength | RealWar.Viewer/Loaders/Kvag.cs:70-115 | Storing samples into the output array succeeds exactly when they fit, and gives an array of its full length. |
| Kvag.MonoFits | RealWar.Viewer/Loaders/Kvag.cs:68-119 | While 2 * dataSize does not wrap, mono decoding succeeds exactly when the payload has at most dataSize bytes, with 2 * dataSize samples. |
| Kvag.StereoFits | RealWar.Viewer/Loaders/Kvag.cs:121-183 | The same for the stereo decoder. |
| Kvag.Headerless | RealWar.Viewer/Loaders/Kvag.cs:55-63 | A file without the magic and below 2^31 bytes always decodes as mono at 11025 Hz into 2n samples: the mono samples of the whole file, then zeros, the last sample 0. |
| Kvag.Header | RealWar.Viewer/Loaders/Kvag.cs:44-54 | With the magic, the rate is the u32 at 8, the stream is stereo exactly when the u16 at 12 is 1, and the payload from 14 goes to the matching decoder with the u32 at 4 as dataSize. |
| Bse.Section | RealWar.Viewer/Loaders/Bse.cs:262-267 | A section that reads has its tag at pos and all its records inside the file, right after the tag. |
| Bse.ReadSpec | RealWar.Viewer/Loaders/Bse.cs:108-255 | A file that reads has the BSE1 tag at 0 and its sections laid out from offset 16 with the header's counts, the optional SCAL and AUVS sections included. |
| Bse.VertFrom | RealWar.Viewer/Loaders/Bse.cs:119-128 | A read from VERT on has VERT and its vertices at pos, then POLY right after them, and so on through the layout. |
| Bse.PolyFrom | RealWar.Viewer/Loaders/Bse.cs:130-144 | A read from POLY on has POLY and numPoly triangles at pos, then the rest of the layout right after them. |
| Bse.ColrFrom | RealWar.Viewer/Loaders/Bse.cs:146-164 | A read from COLR on has COLR and numPoly colour triples at pos, then the rest of the layout. |
| Bse.Uvs0From | RealWar.Viewer/Loaders/Bse.cs:166-181 | A read from UVS0 on has UVS0 and numPoly UV triples at pos, then the rest of the layout. |
| Bse.FlagFrom | RealWar.Viewer/Loaders/Bse.cs:183-189 | A read from FLAG on has FLAG and numPoly flags at pos, then the frames. |
| Bse.FrmsFrom | RealWar.Viewer/Loaders/Bse.cs:191-241 | The frames are absent exactly when numFrames is 0; otherwise FRMS and numFrames frames of numVerts vertices follow; the scale is probed where the frames end (right after the flags without frames) and the UV frames where that probe ends; only frames, scale and UV frames change. |
| Bse.ScalFrom | RealWar.Viewer/Loaders/Bse.cs:212-241 | The probe sets only the scale and UV frames. The scale is present exactly when more than four bytes remain at pos and they start with SCAL, and is then the u32 after the tag. The AUVS probe starts at pos + 8 after SCAL, at pos + 4 after any other four bytes, and at pos when four or fewer remain. The read fails, with EndOfStream, exactly when a SCAL tag lacks its value or the AUVS frames do not fit. |
| Bse.AuvsFrom | RealWar.Viewer/Loaders/Bse.cs:218-241 | UV frames are present exactly when more than four bytes remain and they start with AUVS, and are then numFrames frames of numPoly UV triples right after the tag; the probe fails exactly when those frames do not fit. |
| Bse.ReadMagic | RealWar.Viewer/Loaders/Bse.cs:257-260 | Reads the (up to) four tag bytes at the cursor and advances past them. |
| Bse.AssertMagic | RealWar.Viewer/Loaders/Bse.cs:262-267 | Fails exactly when the bytes read differ from the tag, reporting expected, actual and the offset where the tag began; on success the cursor is past the tag. |
| Bse.ReadVerts | RealWar.Viewer/Loaders/Bse.cs:121-128 | The vertex loop reads n vertices of 12 bytes from the cursor, or fails with EndOfStream. |
| Bse.ReadTris | RealWar.Viewer/Loaders/Bse.cs:132-144 | The triangle loop reads n triangles of eight u32s, or fails with EndOfStream. |
| Bse.ReadTriColors | RealWar.Viewer/Loaders/Bse.cs:148-164 | The colour loop reads n triangle colours of nine bytes from the cursor, or fails with EndOfStream. |
| Bse.ReadTriUvs | RealWar.Viewer/Loaders/Bse.cs:168-181 | The UV loop reads n triangle UV triples of 24 bytes from the cursor, or fails with EndOfStream. |
| Bse.ReadFlags | RealWar.Viewer/Loaders/Bse.cs:185-189 | The flag loop reads n little-endian u32 flags from the cursor, or fails with EndOfStream. |
| Bse.ReadFrames | RealWar.Viewer/Loaders/Bse.cs:196-209 | The frame loop reads count frames of n vertices one after the other, or fails with EndOfStream. |
| Bse.ReadUvFrames | RealWar.Viewer/Loaders/Bse.cs:221-240 | The UV frame loop reads count frames of n UV triples one after the other, or fails with EndOfStream. |
| Bse.Read | RealWar.Viewer/Loaders/Bse.cs:108-255 | The section-by-section reader computes exactly the file's decoding function. |
| Bse.ReadVertSection | RealWar.Viewer/Loaders/Bse.cs:119-128 | Reading from VERT on with the cursor computes exactly the VERT stage of the decoding function, and the stages after it. |
| Bse.ReadPolySection | RealWar.Viewer/Loaders/Bse.cs:130-144 | Reading from POLY on with the cursor computes exactly the POLY stage of the decoding function, and the stages after it. |
| Bse.ReadColrSection | RealWar.Viewer/Loaders/Bse.cs:146-164 | Reading from COLR on with the cursor computes exactly the COLR stage of the decoding function, and the stages after it. |
| Bse.ReadUvs0Section | RealWar.Viewer/Loaders/Bse.cs:166-181 | Reading from UVS0 on with the cursor computes exactly the UVS0 stage of the decoding function, and the stages after it. |
| Bse.ReadFlagSection | RealWar.Viewer/Loaders/Bse.cs:183-189 | Reading from FLAG on with the cursor computes exactly the FLAG stage of the decoding function, and the stages after it. |
| Bse.ReadFrmsSection | RealWar.Viewer/Loaders/Bse.cs:191-210 | Reading FRMS (only when numFrames is not 0) and then the probes computes exactly the FRMS stage of the decoding function. |
| Bse.ProbeScal | RealWar.Viewer/Loaders/Bse.cs:212-216 | The SCAL probe computes exactly the SCAL stage of the decoding function. |
| Bse.ProbeAuvs | RealWar.Viewer/Loaders/Bse.cs:218-241 | The AUVS probe computes exactly the AUVS stage of the decoding function. |
| Bse.BlocksWithin | RealWar.Viewer/Loaders/Bse.cs:197-209 | Every frame before the last ends within the frames section. |
| Bse.VertFramesAt | RealWar.Viewer/Loaders/Bse.cs:197-209 | Frame k of the FRMS section is the numVerts vertices starting k * 12 * numVerts bytes in. |
| Bse.UvFramesAt | RealWar.Viewer/Loaders/Bse.cs:222-240 | UV frame k is the numPoly UV triples starting k * 24 * numPoly bytes in. |
| Bse.VertLayout | RealWar.Viewer/Loaders/Bse.cs:119-241 | A layout from VERT on: VERT, POLY, COLR, UVS0 and FLAG at the offsets the counts give, each section's records right after its tag, the counts kept, FRMS after the flags exactly when there are frames, and the scale and UV frames as probed where the frames end. |
| Bse.ReadOptional | RealWar.Viewer/Loaders/Bse.cs:191-241 | In a file that reads, the scale is present exactly when SCAL lies where the frames end (right after the flags when there are none) and the UV frames exactly when AUVS lies where that probe ends, holding numFrames frames of numPoly UV triples; both are absent (null) otherwise. |
| Bse.FramesShape | RealWar.Viewer/Loaders/Bse.cs:191-210 | The frames hold numFrames sets of numVerts vertices, set k at 12 * numVerts * k bytes after the tag. |
| Bse.BadVertTag | RealWar.Viewer/Loaders/Bse.cs:119 | A wrong VERT tag fails with BadMagic naming the bytes found and offset 16. |
| Bse.ShortFile | RealWar.Viewer/Loaders/Bse.cs:113 | A file of fewer than four bytes fails on BSE1 with the bytes found and an offset before the file start. |
| Bse.AuvsNeedsScal | RealWar.Viewer/Loaders/Bse.cs:212-219 | An AUVS tag where SCAL could be is consumed by the SCAL probe; when the four bytes after it are not AUVS either, neither a scale nor UV frames are read. |
| Bse.UvFramesShape | RealWar.Viewer/Loaders/Bse.cs:218-241 | Present UV frames hold numFrames sets of numPoly UV triples, set k at 24 * numPoly * k bytes after the AUVS tag. |
| ImageUtils.Expand5 | RealWar.Viewer/Utils/ImageUtils.cs:16-18 | A 5-bit channel scaled to 8 bits stays within a byte; 0 maps to 0 and 31 to 255, and only they do. |
| ImageUtils.Rgba8888 | RealWar.Viewer/Utils/ImageUtils.cs:7-24 | The converted image has one word per pixel, each the conversion of its pixel. |
| ImageUtils.Argb1555ToRgba8888 | RealWar.Viewer/Utils/ImageUtils.cs:7-24 | A fresh array of the same length holding the converted image; the input is not changed. |
| ImageUtils.Expand5Monotone | RealWar.Viewer/Utils/ImageUtils.cs:16-18 | A brighter 5-bit channel gives a strictly brighter 8-bit channel. |
| ImageUtils.WordBytes | RealWar.Viewer/Utils/ImageUtils.cs:20 | A word packed from four bytes, high byte first, gives each byte back. |
| ImageUtils.RgbaBytes | RealWar.Viewer/Utils/ImageUtils.cs:15-20 | The top three bytes of a converted pixel are its scaled red, green and blue and the low byte is 255 exactly when the alpha bit is clear, so the colour can be read back. |
| TexturePostProcessing.MaskAll | RealWar.Viewer/PostProcessing/TexturePostProcessing.cs:15-28 | The pass keeps the length and treats each pixel on its own. |
| TexturePostProcessing.MaskOutBlackPixels | RealWar.Viewer/PostProcessing/TexturePostProcessing.cs:13-29 | The array afterwards is the pass applied to its old contents. |
| TexturePostProcessing.MaskBlackChanges | RealWar.Viewer/PostProcessing/TexturePostProcessing.cs:17-27 | A pixel changes exactly when all four fields are 0, and then it becomes 0x8000; every other pixel is kept. |
| TexturePostProcessing.MaskAllIdempotent | RealWar.Viewer/PostProcessing/TexturePostProcessing.cs:13-29 | Running the pass twice is the same as running it once. |
| TexturePostProcessing.SkipPixelForCammo | RealWar.Viewer/PostProcessing/TexturePostProcessing.cs:217-228 | A key colour, which the camouflage leaves alone, has colour bits of at least red 28 and blue 28, so neither black pixel (0x0000, or 0x8000 after masking) is ever one; SkipIgnoresAlpha states the exact channel test and that alpha plays no part. |
| TexturePostProcessing.SkipIgnoresAlpha | RealWar.Viewer/PostProcessing/TexturePostProcessing.cs:217-228 | The skipped key colours are red and blue of at least 28 and green of at most 4; the alpha bit plays no part. |
| TexturePostProcessing.Mix | RealWar.Viewer/PostProcessing/TexturePostProcessing.cs:159-196 | The product of two channel weights of at most 32, shifted right by 5, is again at most 32. |
| TexturePostProcessing.Clamp | RealWar.Viewer/PostProcessing/TexturePostProcessing.cs:204-206 | The clamped channel is at most 31 and a channel already below 32 is unchanged. |
| TexturePostProcessing.BlendChannel | RealWar.Viewer/PostProcessing/TexturePostProcessing.cs:148-206 | A blended channel always fits in 5 bits. |
| TexturePostProcessing.Blend | RealWar.Viewer/PostProcessing/TexturePostProcessing.cs:148-209 | The blended pixel has its alpha bit clear. |
| TexturePostProcessing.PaletteIndex | RealWar.Viewer/PostProcessing/TexturePostProcessing.cs:134-146 | The palette entry chosen is below 32: entry 1 without an alpha plane, the alpha pixel's blue channel with one. |
| TexturePostProcessing.CammoPixel | RealWar.Viewer/PostProcessing/TexturePostProcessing.cs:113-211 | A pixel either keeps its value or, when it is not otherMask, takes a non-zero value with the alpha bit clear. |
| TexturePostProcessing.CammoPixelOutcome | RealWar.Viewer/PostProcessing/TexturePostProcessing.cs:123-146 | A pixel outside the skip conditions keeps its value; the lookup fails, with ArgumentOutOfRange, exactly when the blend is taken and the palette entry lies past the palette. |
| TexturePostProcessing.CammoPixelKeepsBlack | RealWar.Viewer/PostProcessing/TexturePostProcessing.cs:208-211 | With otherMask 0, a pixel is 0 afterwards exactly when it was 0 before. |
| TexturePostProcessing.Cammo.Valid | RealWar.Viewer/PostProcessing/TexturePostProcessing.cs:80-88 | The camouflage planes hold height rows of width pixels. |
| TexturePostProcessing.IdxBound | RealWar.Viewer/PostProcessing/TexturePostProcessing.cs:101-118 | A pixel inside the texture has its row-major offset inside the pixel array. |
| TexturePostProcessing.IdxUnique | RealWar.Viewer/PostProcessing/TexturePostProcessing.cs:101-118 | Distinct pixels of a row-major image have distinct offsets. |
| TexturePostProcessing.Step256 | RealWar.Viewer/PostProcessing/TexturePostProcessing.cs:90-91 | (width << 8) / width is 256, so the camouflage is sampled one to one. |
| TexturePostProcessing.TileStep | RealWar.Viewer/PostProcessing/TexturePostProcessing.cs:108-211 | Writing pixel (y + i, x + k) its camouflaged value moves the tile pass on by one pixel. |
| TexturePostProcessing.TileEnd | RealWar.Viewer/PostProcessing/TexturePostProcessing.cs:103-214 | After the last row the whole tile holds its camouflaged values and nothing outside it changed. |
| TexturePostProcessing.ApplyCammoTile | RealWar.Viewer/PostProcessing/TexturePostProcessing.cs:75-215 | Nothing outside the clipped tile changes. On success texture pixel (y + i, x + k) holds its value under camouflage pixel (i, k); a failing palette lookup is ArgumentOutOfRange, and the tile then stopped at a pixel (y + i, x + k) whose lookup fails: exactly the tile pixels before it in row-major order hold their camouflaged values and every other pixel is unchanged. |
| TexturePostProcessing.TileCammo | RealWar.Viewer/PostProcessing/TexturePostProcessing.cs:45-51 | The camouflage of every tile is valid: cammoWidth wide, cammoHeight - 1 high, with the first row of cammoWidth pixels as its palette. |
| TexturePostProcessing.TileOffsets | RealWar.Viewer/PostProcessing/TexturePostProcessing.cs:53-55 | Inside the tile at a multiple of the tile size, a pixel's place in the tile is its place modulo the tile. |
| TexturePostProcessing.TexelOwnPixel | RealWar.Viewer/PostProcessing/TexturePostProcessing.cs:118-121 | A pixel's camouflaged value depends on no other pixel of the texture. |
| TexturePostProcessing.TileIsCammo | RealWar.Viewer/PostProcessing/TexturePostProcessing.cs:53-72 | A tile pixel not yet reached holds its old value, and its camouflaged value is the one of the repeated camouflage. |
| TexturePostProcessing.CammoTileStep | RealWar.Viewer/PostProcessing/TexturePostProcessing.cs:55-71 | A tile done in full moves the whole pass on to the next tile of the band. |
| TexturePostProcessing.CammoTileStops | RealWar.Viewer/PostProcessing/TexturePostProcessing.cs:53-71 | A tile on the camouflage grid that stops at one of its pixels stops the whole pass there: the tiles before it and the tile's pixels before the failing one hold their camouflaged values, all others are unchanged, and the failing pixel's lookup under the repeated camouflage fails. |
| TexturePostProcessing.CammoStopped | RealWar.Viewer/PostProcessing/TexturePostProcessing.cs:53-71 | When one camouflage tile fails part-way, the pass as a whole fails in the same way: the earlier tiles are applied, the stopped tile's earlier pixels are written, and the failing lookup is a failure of the repeated camouflage at that texture pixel. |
| TexturePostProcessing.CammoTileFails | RealWar.Viewer/PostProcessing/TexturePostProcessing.cs:55-71 | A tile that fails leaves every pixel old or new and has a pixel whose lookup fails. |
| TexturePostProcessing.CammoRowEnd | RealWar.Viewer/PostProcessing/TexturePostProcessing.cs:53-55 | At the end of a band the pass moves to the next band. |
| TexturePostProcessing.CammoEnd | RealWar.Viewer/PostProcessing/TexturePostProcessing.cs:53-72 | After the last band every texture pixel holds its camouflaged value. |
| TexturePostProcessing.ApplyCammoBand | RealWar.Viewer/PostProcessing/TexturePostProcessing.cs:55-71 | One pass of the inner tile loop over a band: every tile from x = 0 to textureWidth is applied, so the band joins the done pixels, or the pass stops at a failing pixel with exactly the pixels reached before it written and the error ArgumentOutOfRange. |
| TexturePostProcessing.ApplyCammo | RealWar.Viewer/PostProcessing/TexturePostProcessing.cs:35-73 | A camouflage plane too short for its width and height fails with Argument before anything changes. On success every texture pixel (py, px) holds its value under camouflage pixel (py mod (cammoHeight - 1), px mod cammoWidth) and nothing past the texture changed. Otherwise the error is ArgumentOutOfRange and the pass stopped at a pixel of a tile on the camouflage grid whose lookup fails: exactly the pixels of earlier tiles (in band and left-to-right order) and the tile's pixels before it hold their camouflaged values, and every other pixel is unchanged. |

## Left out

- File and stream I/O beyond the byte array: each loader takes the whole file as a byte sequence.
- Out-of-memory on huge allocations: an array of up to 2^32 elements is allocated as a sequence. This covers every array allocation sized by a file field: the BSE counts `numVert`, `numPoly` and `numFrames`, the SPT and S16 `frameCount` tables, the TGC, SPT and S16 `width * height` planes, and the KVAG `dataSize * 2` samples.
- Floating point: BSE vertex positions, UVs and the scale are kept as their raw 32-bit patterns, since IEEE arithmetic is never applied to them here.
- Strings: tags are compared as raw bytes. This equals the source's character comparison on ASCII input. UTF-8 decoding of non-ASCII tag bytes is not modelled.
- Bse.AssertMagic: the failure carries the expected tag, the bytes found and the offset, not the formatted exception message.
- Rle.Decode16: on failure the contents of the output array are not stated. The source has already written the words before the failing read or store.
- TexturePostProcessing.ApplyCammoTile: the alpha planes and camouflage planes are read-only sequences, so aliasing between them and the colour array is not modelled.
- TexturePostProcessing.ApplyCammoTile: the store is done even when the value is unchanged. The source skips that store; the array contents are the same.
- TexturePostProcessing.ApplyCammoTile requires the texture planes to hold textureHeight * textureWidth pixels. The IndexOutOfRange a shorter array would throw is not modelled.
- TexturePostProcessing.ApplyCammo requires the same of the texture planes, and does not model the IndexOutOfRange a shorter array would throw either.
- TexturePostProcessing.ApplyCammo requires cammoWidth >= 1 and cammoHeight >= 2, and the failures of the source on smaller values are not modelled. With cammoHeight = 0 and cammoWidth >= 1, the second ArraySegment gets the count -cammoWidth and throws ArgumentOutOfRangeException before any pixel changes, unless the palette segment has already failed. Otherwise cammoWidth = 0 or cammoHeight = 1 makes the first ApplyCammoTile call, which always happens, throw DivideByZeroException at `(cammoWidth << 8) / cammoWidth` or `(cammoHeight << 8) / cammoHeight`.
- TexturePostProcessing.ApplyCammo: the 32-bit overflow of the index arithmetic is not modelled, because indices are unbounded integers. This covers `cammoWidth << 8`, `textureWidth * y` and `cammoWidth * cammoHeight`.
- TexturePostProcessing.ApplyCammo: the ArgumentException of a segment that does not fit becomes Failure(Argument). An out-of-range palette index becomes Failure(ArgumentOutOfRange).
- Kvag.AdpcmDecompressMono and Kvag.AdpcmDecompressStereo: the reader is not left at the end of the stream in the model; the caller does not use it afterwards.
- Kvag.ZeroNibble is stated for channel states whose step is the table entry of their index. That holds for every state the decoders reach.
- The viewers, shaders, camera and GL code of the application are not part of this model.
- ApplyFirstPixelAlphaMask and ApplyAlphaMaskToRgba8888 (called by the sprite viewer) are not part of this model: their definitions are not among the modelled files.
