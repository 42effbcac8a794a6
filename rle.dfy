/**
 * The 16-bit run-length codec shared by the TGC and SPT image loaders
 * (Rle.Decode16). The stream is a series of little-endian u16 words: a control
 * word, then its run. 0xFFFF ends the stream; otherwise the low 15 bits are the
 * run length n, and bit 15 set means "copy the next n words" while bit 15 clear
 * means "repeat the next word n times".
 */
module Rle {
  import opened Bytes

  const Terminator: u16 := 0xFFFF

  /** ctrl & 0x7FFF */
  function RunLength(ctrl: u16): nat { ctrl % 0x8000 }

  /** (ctrl & 0x8000) != 0 */
  predicate IsLiteral(ctrl: u16) { ctrl >= 0x8000 }

  /** One run of the stream. */
  datatype Run = Literal(words: seq<u16>) | Fill(count: nat, word: u16)

  function Expand(run: Run): seq<u16>
  {
    match run
    case Literal(ws) => ws
    case Fill(n, w) => Repeat(w, n)
  }

  /** The word w, n times. */
  function Repeat(w: u16, n: nat): (ws: seq<u16>)
    ensures |ws| == n && forall k :: 0 <= k < n ==> ws[k] == w
  {
    seq(n, _ => w)
  }

  /** The words a sequence of runs stands for, in order. */
  function Flatten(runs: seq<Run>): seq<u16>
  {
    if runs == [] then [] else Expand(runs[0]) + Flatten(runs[1..])
  }

  /** out with ws written over it from index i on. */
  function Splice(out: seq<u16>, i: nat, ws: seq<u16>): (r: seq<u16>)
    requires i + |ws| <= |out|
    ensures |r| == |out|
    ensures forall t :: 0 <= t < |out| ==> r[t] == if i <= t < i + |ws| then ws[t - i] else out[t]
  {
    out[..i] + ws + out[i + |ws|..]
  }

  /**
   * The stream read as runs, independently of any output buffer: from byte pos
   * up to the terminator or the end of the input. None when a control word or
   * a run is cut short by the end of the input.
   */
  function Parse(b: seq<u8>, pos: nat): Option<seq<Run>>
    decreases |b| - pos
  {
    if pos >= |b| then Some([])
    else if pos + 2 > |b| then None
    else
      var ctrl := U16At(b, pos);
      if ctrl == Terminator then Some([])
      else if IsLiteral(ctrl) then
        var n := RunLength(ctrl);
        if pos + 2 + 2 * n > |b| then None
        else
          match Parse(b, pos + 2 + 2 * n)
          case None => None
          case Some(rest) => Some([Literal(U16s(b, pos + 2, n))] + rest)
      else if pos + 4 > |b| then None
      else
        match Parse(b, pos + 4)
        case None => None
        case Some(rest) => Some([Fill(RunLength(ctrl), U16At(b, pos + 2))] + rest)
  }

  /** Where decoding stands after a run: the next byte, the buffer, the next index to write. */
  datatype Cursor = Cursor(pos: nat, out: seq<u16>, i: nat)

  /**
   * One turn of Decode16's loop: the control word at byte pos and its run,
   * written at index i of out. None when the control word is the terminator.
   * A read past the end of b is EndOfStream; a store past the end of out is
   * IndexOutOfRange, whichever comes first (a copied word is read before it is
   * stored).
   */
  function DecodeStep(b: seq<u8>, pos: nat, out: seq<u16>, i: nat): (r: Result<Option<Cursor>>)
    requires i <= |out|
    ensures r.Success? && r.value.Some? ==> pos < r.value.value.pos && r.value.value.i <= |r.value.value.out|
  {
    if pos + 2 > |b| then Failure(EndOfStream)
    else
      var ctrl := U16At(b, pos);
      if ctrl == Terminator then Success(None)
      else
        var n := RunLength(ctrl);
        var room := |out| - i;
        if IsLiteral(ctrl) then
          var avail := (|b| - (pos + 2)) / 2;
          if pos + 2 + 2 * n <= |b| && n <= room then
            Success(Some(Cursor(pos + 2 + 2 * n, Splice(out, i, U16s(b, pos + 2, n)), i + n)))
          else if pos + 2 + 2 * n > |b| && avail <= room then Failure(EndOfStream)
          else Failure(IndexOutOfRange)
        else if pos + 4 > |b| then Failure(EndOfStream)
        else if n <= room then
          Success(Some(Cursor(pos + 4, Splice(out, i, Repeat(U16At(b, pos + 2), n)), i + n)))
        else Failure(IndexOutOfRange)
  }

  /**
   * The decoder from byte pos of b on, writing at index i of out: runs until
   * the input is used up or the terminator is read.
   */
  function DecodeFrom(b: seq<u8>, pos: nat, out: seq<u16>, i: nat): Result<seq<u16>>
    requires i <= |out|
    decreases |b| - pos
  {
    if pos >= |b| then Success(out)
    else
      match DecodeStep(b, pos, out, i)
      case Failure(e) => Failure(e)
      case Success(None) => Success(out)
      case Success(Some(c)) => DecodeFrom(b, c.pos, c.out, c.i)
  }

  /**
   * What Decode16(inBytes, inOffset, outWords) leaves in outWords, whose words
   * were out. An offset past the end is refused by the MemoryStream constructor.
   */
  function Decode16Spec(inBytes: seq<u8>, inOffset: nat, out: seq<u16>): Result<seq<u16>>
  {
    if inOffset > |inBytes| then Failure(ArgumentOutOfRange)
    else DecodeFrom(inBytes[inOffset..], 0, out, 0)
  }

  /**
   * Decode16: decodes the stream that starts at inOffset into outWords, in
   * place. Words past the last one decoded keep their values.
   */
  method Decode16(inBytes: seq<u8>, inOffset: nat, outWords: array<u16>) returns (r: Result<()>)
    modifies outWords
    ensures var spec := Decode16Spec(inBytes, inOffset, old(outWords[..]));
      && (r.Success? <==> spec.Success?)
      && (r.Failure? ==> r.error == spec.error)
      && (r.Success? ==> outWords[..] == spec.value)
  {
    if inOffset > |inBytes| {
      return Failure(ArgumentOutOfRange);
    }
    var reader := new Reader(inBytes[inOffset..]);
    ghost var b := reader.data;
    ghost var spec := DecodeFrom(b, 0, outWords[..], 0);
    var i: nat := 0;

    while reader.HasMore()
      invariant i <= outWords.Length
      invariant spec == DecodeFrom(b, reader.pos, outWords[..], i)
      decreases |b| - reader.pos
    {
      var step :- DecodeRun(reader, outWords, i);
      if step.None? {
        break;
      }
      i := step.value;
    }
    return Success(());
  }

  /**
   * The body of Decode16's loop: one control word and its run, as DecodeStep
   * says. None when the word is the terminator, else the index after the run.
   */
  method DecodeRun(reader: Reader, outWords: array<u16>, i: nat) returns (r: Result<Option<nat>>)
    requires i <= outWords.Length && reader.pos < |reader.data|
    modifies reader, outWords
    ensures var step := DecodeStep(reader.data, old(reader.pos), old(outWords[..]), i);
      match r
      case Failure(e) => step == Failure(e)
      case Success(None) => step == Success(None) && outWords[..] == old(outWords[..])
      case Success(Some(i')) => step == Success(Some(Cursor(reader.pos, outWords[..], i')))
  {
    ghost var pos0, out0 := reader.pos, outWords[..];
    var ctrl :- reader.ReadU16();
    assert outWords[..] == out0;
    if ctrl == Terminator {
      return Success(None);
    }
    var sequenceLen := RunLength(ctrl);
    var next: nat;
    if IsLiteral(ctrl) {
      next :- CopyWords(reader, outWords, i, sequenceLen);
    } else {
      var word :- reader.ReadU16();
      assert outWords[..] == out0;
      next :- FillWords(outWords, i, sequenceLen, word);
    }
    return Success(Some(next));
  }

  /**
   * The copy loop of Decode16: reads n words and stores them from index i on,
   * each word read before it is stored. Answers the index after the run.
   */
  method CopyWords(reader: Reader, outWords: array<u16>, i: nat, n: nat) returns (r: Result<nat>)
    requires i <= outWords.Length
    requires reader.pos <= |reader.data|
    modifies reader, outWords
    ensures var avail := (|reader.data| - old(reader.pos)) / 2;
      var room := outWords.Length - i;
      if old(reader.pos) + 2 * n <= |reader.data| && n <= room then
        && r == Success(i + n)
        && reader.pos == old(reader.pos) + 2 * n
        && outWords[..] == Splice(old(outWords[..]), i, U16s(reader.data, old(reader.pos), n))
      else if old(reader.pos) + 2 * n > |reader.data| && avail <= room then
        r == Failure(EndOfStream)
      else r == Failure(IndexOutOfRange)
  {
    ghost var pos0, out0 := reader.pos, outWords[..];
    var j := i;
    var k := 0;
    while k < n
      invariant k <= n
      invariant reader.pos == pos0 + 2 * k <= |reader.data|
      invariant j == i + k <= outWords.Length
      invariant outWords[..] == Splice(out0, i, U16s(reader.data, pos0, k))
    {
      var word :- reader.ReadU16();
      if j >= outWords.Length {
        return Failure(IndexOutOfRange);
      }
      outWords[j] := word;
      j, k := j + 1, k + 1;
    }
    return Success(j);
  }

  /** The repeat loop of Decode16: stores word n times from index i on. */
  method FillWords(outWords: array<u16>, i: nat, n: nat, word: u16) returns (r: Result<nat>)
    requires i <= outWords.Length
    modifies outWords
    ensures n <= outWords.Length - i ==>
      r == Success(i + n) && outWords[..] == Splice(old(outWords[..]), i, Repeat(word, n))
    ensures n > outWords.Length - i ==> r == Failure(IndexOutOfRange)
  {
    ghost var out0 := outWords[..];
    var j := i;
    var k := 0;
    while k < n
      invariant k <= n
      invariant j == i + k <= outWords.Length
      invariant outWords[..] == Splice(out0, i, Repeat(word, k))
    {
      if j >= outWords.Length {
        return Failure(IndexOutOfRange);
      }
      outWords[j] := word;
      j, k := j + 1, k + 1;
    }
    return Success(j);
  }

  /** The words a parse stands for, or None when the stream does not parse. */
  function Flat(runs: Option<seq<Run>>): Option<seq<u16>>
  {
    if runs.Some? then Some(Flatten(runs.value)) else None
  }

  /** ws in front of the words of the rest of the stream, or None when the rest does not parse. */
  function Prepend(ws: seq<u16>, rest: Option<seq<u16>>): Option<seq<u16>>
  {
    if rest.Some? then Some(ws + rest.value) else None
  }

  /** out with ws written from index i on, or None when ws is missing or does not fit. */
  function Placed(out: seq<u16>, i: nat, ws: Option<seq<u16>>): Option<seq<u16>>
  {
    if ws.Some? && i + |ws.value| <= |out| then Some(Splice(out, i, ws.value)) else None
  }

  /** The buffer a decode leaves, or None when it fails. */
  function Succeeded(r: Result<seq<u16>>): Option<seq<u16>>
  {
    if r.Success? then Some(r.value) else None
  }

  /**
   * The decoder agrees with the run view: it succeeds exactly when the stream
   * parses into whole runs whose words fit in the buffer from index i on, and
   * then the buffer holds the concatenation of the runs from i on and its old
   * words everywhere else.
   */
  lemma {:induction false} DecodeIsFlattenedRuns(b: seq<u8>, pos: nat, out: seq<u16>, i: nat)
    requires i <= |out|
    ensures DecodeFrom(b, pos, out, i).Success? <==>
      Parse(b, pos).Some? && i + |Flatten(Parse(b, pos).value)| <= |out|
    ensures DecodeFrom(b, pos, out, i).Success? ==>
      DecodeFrom(b, pos, out, i).value == Splice(out, i, Flatten(Parse(b, pos).value))
  {
    DecodeAgrees(b, pos, out, i);
  }

  /** Decode16 keeps the length of the buffer it decodes into. */
  lemma {:induction false} Decode16Length(inBytes: seq<u8>, inOffset: nat, out: seq<u16>)
    ensures Decode16Spec(inBytes, inOffset, out).Success? ==> |Decode16Spec(inBytes, inOffset, out).value| == |out|
  {
    if inOffset <= |inBytes| {
      DecodeIsFlattenedRuns(inBytes[inOffset..], 0, out, 0);
    }
  }

  /** DecodeIsFlattenedRuns as one equation, by induction on the runs. */
  lemma {:induction false} DecodeAgrees(b: seq<u8>, pos: nat, out: seq<u16>, i: nat)
    requires i <= |out|
    ensures Succeeded(DecodeFrom(b, pos, out, i)) == Placed(out, i, Flat(Parse(b, pos)))
    decreases |b| - pos, 2
  {
    if pos + 2 <= |b| && U16At(b, pos) != Terminator {
      var ctrl := U16At(b, pos);
      var n := RunLength(ctrl);
      if IsLiteral(ctrl) && pos + 2 + 2 * n <= |b| {
        LiteralStep(b, pos, out, i);
      } else if !IsLiteral(ctrl) && pos + 4 <= |b| {
        FillStep(b, pos, out, i);
      }
    } else if pos >= |b| || pos + 2 <= |b| {
      assert Flatten([]) == [];
      assert Splice(out, i, []) == out;
    }
  }

  /** DecodeAgrees for a stream that starts with a whole literal run. */
  lemma {:induction false} LiteralStep(b: seq<u8>, pos: nat, out: seq<u16>, i: nat)
    requires i <= |out|
    requires pos + 2 <= |b| && U16At(b, pos) != Terminator && IsLiteral(U16At(b, pos))
    requires pos + 2 + 2 * RunLength(U16At(b, pos)) <= |b|
    ensures Succeeded(DecodeFrom(b, pos, out, i)) == Placed(out, i, Flat(Parse(b, pos)))
    decreases |b| - pos, 1
  {
    var n := RunLength(U16At(b, pos));
    var ws := U16s(b, pos + 2, n);
    RunStep(b, pos, out, i, Literal(ws), pos + 2 + 2 * n);
  }

  /** DecodeAgrees for a stream that starts with a whole repeat run. */
  lemma {:induction false} FillStep(b: seq<u8>, pos: nat, out: seq<u16>, i: nat)
    requires i <= |out|
    requires pos + 4 <= |b| && U16At(b, pos) != Terminator && !IsLiteral(U16At(b, pos))
    ensures Succeeded(DecodeFrom(b, pos, out, i)) == Placed(out, i, Flat(Parse(b, pos)))
    decreases |b| - pos, 1
  {
    RunStep(b, pos, out, i, Fill(RunLength(U16At(b, pos)), U16At(b, pos + 2)), pos + 4);
  }

  /**
   * DecodeAgrees for a stream that starts with a whole run ending at byte
   * next: the run is written if it fits, and the rest follows.
   */
  lemma {:induction false} RunStep(b: seq<u8>, pos: nat, out: seq<u16>, i: nat, run: Run, next: nat)
    requires i <= |out| && pos < next <= |b|
    requires Parse(b, pos) == if Parse(b, next).Some? then Some([run] + Parse(b, next).value) else None
    requires |Expand(run)| <= |out| - i ==>
      DecodeStep(b, pos, out, i) == Success(Some(Cursor(next, Splice(out, i, Expand(run)), i + |Expand(run)|)))
    requires |Expand(run)| > |out| - i ==> DecodeStep(b, pos, out, i) == Failure(IndexOutOfRange)
    ensures Succeeded(DecodeFrom(b, pos, out, i)) == Placed(out, i, Flat(Parse(b, pos)))
    decreases |b| - pos, 0
  {
    var ws := Expand(run);
    var rest := Flat(Parse(b, next));
    ParseCons(b, pos, next, run);
    if |ws| <= |out| - i {
      DecodeAgrees(b, next, Splice(out, i, ws), i + |ws|);
      PlacedTwice(out, i, ws, rest);
    } else {
      assert Placed(out, i, Prepend(ws, rest)) == None;
    }
  }

  /** A stream that starts with a run parses into that run's words followed by the rest. */
  lemma {:induction false} ParseCons(b: seq<u8>, pos: nat, next: nat, run: Run)
    requires Parse(b, pos) == if Parse(b, next).Some? then Some([run] + Parse(b, next).value) else None
    ensures Flat(Parse(b, pos)) == Prepend(Expand(run), Flat(Parse(b, next)))
  {
    if Parse(b, next).Some? {
      FlattenCons(run, Parse(b, next).value);
    }
  }

  /** Writing ws and then the rest right after it is writing ws followed by the rest. */
  lemma {:induction false} PlacedTwice(out: seq<u16>, i: nat, ws: seq<u16>, rest: Option<seq<u16>>)
    requires i + |ws| <= |out|
    ensures Placed(Splice(out, i, ws), i + |ws|, rest) == Placed(out, i, Prepend(ws, rest))
  {
    if rest.Some? && i + |ws| + |rest.value| <= |out| {
      SpliceTwice(out, i, ws, rest.value);
    }
  }

  lemma {:induction false} FlattenCons(run: Run, runs: seq<Run>)
    ensures Flatten([run] + runs) == Expand(run) + Flatten(runs)
  {
    assert ([run] + runs)[1..] == runs;
  }

  /** Writing ws and then the rest right after it is writing ws + rest. */
  lemma {:induction false} SpliceTwice(out: seq<u16>, i: nat, ws: seq<u16>, tail: seq<u16>)
    requires i + |ws| + |tail| <= |out|
    ensures Splice(Splice(out, i, ws), i + |ws|, tail) == Splice(out, i, ws + tail)
  {
  }

  /** The words ws as consecutive little-endian pairs of bytes. */
  function LeWords(ws: seq<u16>): (r: seq<u8>)
    ensures |r| == 2 * |ws|
  {
    if ws == [] then [] else Le16(ws[0]) + LeWords(ws[1..])
  }

  /**
   * A reference encoder: ws as literal runs of at most 0x7FFE words each,
   * closed by the terminator. Decode16 has no encoder of its own; this one is
   * the inverse its decoder is checked against. (A literal run of 0x7FFF words
   * cannot be written: its control word would be 0xFFFF, the terminator.)
   */
  function EncodeLiterals(ws: seq<u16>): seq<u8>
    decreases |ws|
  {
    if ws == [] then Le16(Terminator)
    else
      var n := if |ws| < 0x7FFE then |ws| else 0x7FFE;
      Le16(0x8000 + n) + LeWords(ws[..n]) + EncodeLiterals(ws[n..])
  }

  lemma {:induction false} LeWordsAt(ws: seq<u16>, b: seq<u8>, pos: nat)
    requires pos + 2 * |ws| <= |b| && b[pos..pos + 2 * |ws|] == LeWords(ws)
    ensures U16s(b, pos, |ws|) == ws
    decreases |ws|
  {
    if ws != [] {
      assert b[pos..pos + 2] == b[pos..pos + 2 * |ws|][..2] == Le16(ws[0]);
      U16AtSlice(b, pos, ws[0]);
      assert b[pos + 2..pos + 2 + 2 * |ws[1..]|] == b[pos..pos + 2 * |ws|][2..] == LeWords(ws[1..]);
      LeWordsAt(ws[1..], b, pos + 2);
    }
  }

  /** A slice equal to x + y + z splits into slices equal to x, y and z. */
  lemma {:induction false} SliceParts(b: seq<u8>, pos: nat, x: seq<u8>, y: seq<u8>, z: seq<u8>)
    requires pos + |x| + |y| + |z| <= |b| && b[pos..pos + |x| + |y| + |z|] == x + y + z
    ensures b[pos..pos + |x|] == x
    ensures b[pos + |x|..pos + |x| + |y|] == y
    ensures b[pos + |x| + |y|..pos + |x| + |y| + |z|] == z
  {
    var whole := b[pos..pos + |x| + |y| + |z|];
    forall t | 0 <= t < |x| ensures b[pos + t] == x[t] {
      assert b[pos + t] == whole[t];
    }
    forall t | 0 <= t < |y| ensures b[pos + |x| + t] == y[t] {
      assert b[pos + |x| + t] == whole[|x| + t];
    }
    forall t | 0 <= t < |z| ensures b[pos + |x| + |y| + t] == z[t] {
      assert b[pos + |x| + |y| + t] == whole[|x| + |y| + t];
    }
  }

  /** A buffer that holds EncodeLiterals(ws) at pos parses, from pos, into runs that flatten to ws. */
  lemma {:induction false} ParseEncoded(ws: seq<u16>, b: seq<u8>, pos: nat)
    requires pos + |EncodeLiterals(ws)| <= |b| && b[pos..pos + |EncodeLiterals(ws)|] == EncodeLiterals(ws)
    ensures Parse(b, pos).Some? && Flatten(Parse(b, pos).value) == ws
    decreases |ws|
  {
    if ws == [] {
      U16AtSlice(b, pos, Terminator);
      assert Parse(b, pos) == Some([]);
    } else {
      var n := if |ws| < 0x7FFE then |ws| else 0x7FFE;
      var head, tail := ws[..n], ws[n..];
      EncodedParts(ws, b, pos);
      ParseEncoded(tail, b, pos + 2 + 2 * n);
      ParseLiteral(b, pos, n, head, tail);
      assert head + tail == ws;
    }
  }

  /** The first literal run of an encoding at pos: its control word, its words, and the encoding of the rest after it. */
  lemma {:induction false} EncodedParts(ws: seq<u16>, b: seq<u8>, pos: nat)
    requires ws != []
    requires pos + |EncodeLiterals(ws)| <= |b| && b[pos..pos + |EncodeLiterals(ws)|] == EncodeLiterals(ws)
    ensures var n := if |ws| < 0x7FFE then |ws| else 0x7FFE;
      var next := pos + 2 + 2 * n;
      && U16At(b, pos) == 0x8000 + n && U16s(b, pos + 2, n) == ws[..n]
      && next + |EncodeLiterals(ws[n..])| <= |b| && b[next..next + |EncodeLiterals(ws[n..])|] == EncodeLiterals(ws[n..])
  {
    var n := if |ws| < 0x7FFE then |ws| else 0x7FFE;
    SliceParts(b, pos, Le16(0x8000 + n), LeWords(ws[..n]), EncodeLiterals(ws[n..]));
    U16AtSlice(b, pos, 0x8000 + n);
    LeWordsAt(ws[..n], b, pos + 2);
  }

  /** A whole literal run followed by a stream that parses. */
  lemma {:induction false} ParseLiteral(b: seq<u8>, pos: nat, n: nat, ws: seq<u16>, tail: seq<u16>)
    requires |ws| == n < 0x7FFF && pos + 2 + 2 * n <= |b| && U16At(b, pos) == 0x8000 + n
    requires U16s(b, pos + 2, n) == ws
    requires Parse(b, pos + 2 + 2 * n).Some? && Flatten(Parse(b, pos + 2 + 2 * n).value) == tail
    ensures Parse(b, pos).Some? && Flatten(Parse(b, pos).value) == ws + tail
  {
    assert RunLength(0x8000 + n) == n && IsLiteral(0x8000 + n);
    ParseCons(b, pos, pos + 2 + 2 * n, Literal(ws));
  }

  /**
   * Round trip: decoding an encoded image into a buffer with room for it
   * writes exactly its words, whatever follows the terminator.
   */
  lemma {:induction false} DecodeEncoded(ws: seq<u16>, tail: seq<u8>, out: seq<u16>)
    requires |ws| <= |out|
    ensures Decode16Spec(EncodeLiterals(ws) + tail, 0, out) == Success(ws + out[|ws|..])
  {
    var e := EncodeLiterals(ws);
    var b := e + tail;
    assert b[0..|e|] == e;
    assert b[0..] == b;
    DecodeEncodedAt(ws, b, out);
  }

  lemma {:induction false} DecodeEncodedAt(ws: seq<u16>, b: seq<u8>, out: seq<u16>)
    requires |ws| <= |out|
    requires |EncodeLiterals(ws)| <= |b| && b[0..|EncodeLiterals(ws)|] == EncodeLiterals(ws)
    ensures DecodeFrom(b, 0, out, 0) == Success(ws + out[|ws|..])
  {
    ParseEncoded(ws, b, 0);
    var runs := Parse(b, 0);
    assert runs.Some? && Flatten(runs.value) == ws;
    DecodeIsFlattenedRuns(b, 0, out, 0);
    var d := DecodeFrom(b, 0, out, 0);
    assert d.Success?;
    assert d.value == Splice(out, 0, ws);
    SpliceAtZero(out, ws);
  }

  lemma {:induction false} SpliceAtZero(out: seq<u16>, ws: seq<u16>)
    requires |ws| <= |out|
    ensures Splice(out, 0, ws) == ws + out[|ws|..]
  {
  }

  /** Once the terminator is read, nothing after it is looked at and the buffer is left as it is. */
  lemma {:induction false} TerminatorStops(b: seq<u8>, pos: nat, out: seq<u16>, i: nat, tail: seq<u8>)
    requires i <= |out| && pos + 2 <= |b| && U16At(b, pos) == Terminator
    ensures DecodeFrom(b, pos, out, i) == Success(out)
    ensures DecodeFrom(b[..pos + 2] + tail, pos, out, i) == Success(out)
  {
    var b' := b[..pos + 2] + tail;
    assert b'[pos] == b[pos] && b'[pos + 1] == b[pos + 1];
  }

  /** Bytes before inOffset are never read. */
  lemma {:induction false} OffsetPrefixIgnored(prefix: seq<u8>, stream: seq<u8>, out: seq<u16>)
    ensures Decode16Spec(prefix + stream, |prefix|, out) == Decode16Spec(stream, 0, out)
  {
    assert (prefix + stream)[|prefix|..] == stream == stream[0..];
  }

  /** A copy run of two words followed by the terminator. */
  lemma {:induction false} CopyExample(a: u16, b: u16)
    ensures Decode16Spec(Le16(0x8002) + Le16(a) + Le16(b) + Le16(Terminator), 0, [0, 0]) == Success([a, b])
  {
    var s := Le16(0x8002) + Le16(a) + Le16(b) + Le16(Terminator);
    assert s[0..] == s;
    assert U16At(s, 0) == 0x8002 && U16At(s, 2) == a && U16At(s, 4) == b && U16At(s, 6) == Terminator;
    assert U16s(s, 2, 2) == [a, b];
    assert Splice([0, 0], 0, [a, b]) == [a, b];
    assert DecodeFrom(s, 0, [0, 0], 0) == DecodeFrom(s, 6, [a, b], 2);
  }

  /** A repeat run of three words followed by the terminator. */
  lemma {:induction false} RepeatExample(v: u16)
    ensures Decode16Spec(Le16(0x0003) + Le16(v) + Le16(Terminator), 0, [0, 0, 0]) == Success([v, v, v])
  {
    var s := Le16(0x0003) + Le16(v) + Le16(Terminator);
    assert s[0..] == s;
    assert U16At(s, 0) == 3 && U16At(s, 2) == v && U16At(s, 4) == Terminator;
    assert Splice([0, 0, 0], 0, Repeat(v, 3)) == [v, v, v];
    assert DecodeFrom(s, 0, [0, 0, 0], 0) == DecodeFrom(s, 4, [v, v, v], 3);
  }

  /**
   * Streams without a terminator: they end with the input, an empty repeat run
   * writes nothing, a run longer than the room left is IndexOutOfRange and a
   * copy run cut short by the input is EndOfStream.
   */
  lemma {:induction false} UnterminatedExamples(v: u16)
    ensures Decode16Spec(Le16(0x0002) + Le16(v), 0, [0, 0]) == Success([v, v])
    ensures Decode16Spec(Le16(0x0000) + Le16(v), 0, [7]) == Success([7])
    ensures Decode16Spec(Le16(0x0002) + Le16(v), 0, [0]) == Failure(IndexOutOfRange)
    ensures Decode16Spec(Le16(0x8001) + [0], 0, [0]) == Failure(EndOfStream)
  {
    var s := Le16(0x0002) + Le16(v);
    assert s[0..] == s;
    assert U16At(s, 0) == 2 && U16At(s, 2) == v;
    assert Splice([0, 0], 0, Repeat(v, 2)) == [v, v];
    assert DecodeFrom(s, 0, [0, 0], 0) == DecodeFrom(s, 4, [v, v], 2);
    var e := Le16(0x0000) + Le16(v);
    assert e[0..] == e;
    assert U16At(e, 0) == 0;
    assert Splice([7], 0, []) == [7];
    assert DecodeFrom(e, 0, [7], 0) == DecodeFrom(e, 4, [7], 0);
    var c := Le16(0x8001) + [0];
    assert c[0..] == c;
    assert U16At(c, 0) == 0x8001;
  }
}
