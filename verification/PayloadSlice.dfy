/** The payload of a self-extracting archive (scripts/cann_extract.py): where it starts, and a stream
    over it that never leaves it. */
module PayloadSlice {
  import opened Lists

  type Byte = b: int | 0 <= b < 256

  const NEWLINE: Byte := 10

  // ----- where the payload starts

  /** The length of the first line, its newline included; all of a text without one. */
  function LineLength(s: seq<Byte>): (n: nat)
    ensures n <= |s| && (s != [] ==> n > 0)
  {
    if s == [] then 0 else if s[0] == NEWLINE then 1 else 1 + LineLength(s[1..])
  }

  function Lines(s: seq<Byte>): seq<seq<Byte>>
    decreases |s|
  {
    if s == [] then [] else [s[..LineLength(s)]] + Lines(s[LineLength(s)..])
  }

  function Joined(lines: seq<seq<Byte>>): seq<Byte> {
    if lines == [] then [] else lines[0] + Joined(lines[1..])
  }

  lemma {:induction false} LineLengthShape(s: seq<Byte>)
    requires s != []
    ensures NEWLINE !in s[..LineLength(s) - 1]
    ensures s[LineLength(s) - 1] == NEWLINE || LineLength(s) == |s|
  {
    if s[0] != NEWLINE && |s| > 1 {
      LineLengthShape(s[1..]);
      var n := LineLength(s[1..]);
      assert s[..n] == [s[0]] + s[1..][..n - 1];
      assert s[1..][n - 1] == s[n];
    }
  }

  lemma LinesStep(s: seq<Byte>)
    requires s != []
    ensures Lines(s) == [s[..LineLength(s)]] + Lines(s[LineLength(s)..])
  {
  }

  lemma JoinedStep(line: seq<Byte>, lines: seq<seq<Byte>>)
    ensures Joined([line] + lines) == line + Joined(lines)
  {
    assert ([line] + lines)[1..] == lines;
  }

  /** A line is not empty and has no newline but at its end. */
  predicate IsLine(l: seq<Byte>) {
    l != [] && NEWLINE !in l[..|l| - 1]
  }

  predicate EndsInNewline(l: seq<Byte>) {
    l != [] && l[|l| - 1] == NEWLINE
  }

  /** The lines make up the text; each ends with its only newline, except that the last may lack it. */
  lemma {:induction false} LinesMakeText(s: seq<Byte>)
    ensures Joined(Lines(s)) == s
    ensures forall i :: 0 <= i < |Lines(s)| ==> IsLine(Lines(s)[i])
    ensures forall i :: 0 <= i < |Lines(s)| - 1 ==> EndsInNewline(Lines(s)[i])
    decreases |s|
  {
    if s == [] {
    } else {
      var n := LineLength(s);
      LineLengthShape(s);
      LinesMakeText(s[n..]);
      LinesStep(s);
      hide Lines, LineLength, Joined;
      JoinedStep(s[..n], Lines(s[n..]));
      assert s[..n] + s[n..] == s;
      assert s[..n][..n - 1] == s[..n - 1];
      if n == |s| {
        NoLines(s[n..]);
      }
    }
  }

  lemma NoLines(s: seq<Byte>)
    requires s == []
    ensures Lines(s) == []
  {
  }

  datatype Compression = Gzip | Xz | Bzip2

  datatype Spec =
    | NoSkipLine
    | EndedInHeader
    | UnknownMagic
    | Payload(offset: nat, size: nat, compression: Compression)

  function Detect(rest: seq<Byte>): Option<Compression> {
    var magic := if |rest| > 8 then rest[..8] else rest;
    if [0x1f, 0x8b] <= magic then Some(Gzip)
    else if [0xfd, 0x37, 0x7a, 0x58, 0x5a, 0x00] <= magic then Some(Xz)
    else if [0x42, 0x5a, 0x68] <= magic then Some(Bzip2)
    else None
  }

  /** Which payloads are known: by their first bytes, of which no two kinds share both. */
  lemma DetectIff(rest: seq<Byte>)
    ensures Detect(rest) == Some(Gzip) <==> |rest| >= 2 && rest[0] == 0x1f && rest[1] == 0x8b
    ensures Detect(rest) == Some(Xz) <==> |rest| >= 6 && rest[0] == 0xfd && rest[1..6] == [0x37, 0x7a, 0x58, 0x5a, 0x00]
    ensures Detect(rest) == Some(Bzip2) <==> |rest| >= 3 && rest[0] == 0x42 && rest[1] == 0x5a && rest[2] == 0x68
  {
    var magic := if |rest| > 8 then rest[..8] else rest;
    assert forall i :: 0 <= i < |magic| ==> magic[i] == rest[i];
  }

  lemma {:induction false} JoinedConcat(a: seq<seq<Byte>>, b: seq<seq<Byte>>)
    ensures Joined(a + b) == Joined(a) + Joined(b)
  {
    if a == [] {
      assert a + b == b;
    } else {
      JoinedConcat(a[1..], b);
      assert (a + b)[1..] == a[1..] + b;
    }
  }

  /** `offset` is where the lines from number `seen` on begin. */
  ghost predicate At(file: seq<Byte>, seen: nat, offset: nat) {
    offset <= |file| && seen <= |Lines(file)|
    && Lines(file)[seen..] == Lines(file[offset..])
    && file[..offset] == Joined(Lines(file)[..seen])
  }

  lemma AtStart(file: seq<Byte>)
    ensures At(file, 0, 0)
  {
    assert file[0..] == file;
  }

  /** One more line moves from the rest of the lines to the part before. */
  lemma NextLine(lines: seq<seq<Byte>>, seen: nat, line: seq<Byte>, more: seq<seq<Byte>>)
    requires seen <= |lines| && lines[seen..] == [line] + more
    ensures seen < |lines| && lines[seen + 1..] == more && lines[..seen + 1] == lines[..seen] + [line]
  {
    assert lines[seen] == lines[seen..][0] == line;
    assert lines[seen + 1..] == lines[seen..][1..];
  }

  lemma AtNext(file: seq<Byte>, seen: nat, offset: nat)
    requires At(file, seen, offset) && offset < |file|
    ensures At(file, seen + 1, offset + LineLength(file[offset..]))
  {
    hide Lines, LineLength, Joined;
    var rest := file[offset..];
    var n := LineLength(rest);
    LinesStep(rest);
    NextLine(Lines(file), seen, rest[..n], Lines(rest[n..]));
    JoinedConcat(Lines(file)[..seen], [rest[..n]]);
    JoinedStep(rest[..n], []);
    assert [rest[..n]] + [] == [rest[..n]];
    JoinedNone();
    assert rest[n..] == file[offset + n..];
    assert file[..offset + n] == file[..offset] + rest[..n];
  }

  lemma JoinedNone()
    ensures Joined([]) == []
  {
  }

  lemma AtEnd(file: seq<Byte>, seen: nat)
    requires At(file, seen, |file|)
    ensures seen == |Lines(file)|
  {
    NoLines(file[|file|..]);
  }

  /** Skips the header's lines and looks at what follows. `skip` is the number the header announces.
      The payload starts behind exactly that many lines and reaches to the end of the file. */
  method ReadPayloadSpec(file: seq<Byte>, skip: Option<nat>) returns (spec: Spec)
    ensures spec.NoSkipLine? <==> skip.None?
    ensures skip.Some? ==> (spec.EndedInHeader? <==> skip.value > |Lines(file)|)
    ensures spec.Payload? ==>
              && skip.Some? && skip.value <= |Lines(file)|
              && spec.offset + spec.size == |file|
              && file[..spec.offset] == Joined(Lines(file)[..skip.value])
              && Detect(file[spec.offset..]) == Some(spec.compression)
    ensures spec.UnknownMagic? ==>
              && skip.Some? && skip.value <= |Lines(file)|
              && Detect(Joined(Lines(file)[skip.value..])).None?
  {
    hide Lines, LineLength, Joined, Detect;
    if skip.None? {
      return NoSkipLine;
    }
    var offset: nat := 0;
    var seen: nat := 0;
    AtStart(file);
    while seen < skip.value
      invariant seen <= skip.value && At(file, seen, offset)
      decreases skip.value - seen
    {
      if offset == |file| {
        AtEnd(file, seen);
        return EndedInHeader;
      }
      AtNext(file, seen, offset);
      offset := offset + LineLength(file[offset..]);
      seen := seen + 1;
    }
    LinesMakeText(file[offset..]);
    var comp := Detect(file[offset..]);
    if comp.None? {
      return UnknownMagic;
    }
    spec := Payload(offset, |file| - offset, comp.value);
  }

  // ----- a stream over the payload

  lemma Regroup(a: seq<Byte>, b: seq<Byte>, c: seq<Byte>)
    ensures a + (b + c) == a + b + c
  {
  }

  /** The region of a file from an offset on, as a stream. The file may give less than it is asked for,
      but at least one byte when there is one. */
  class Slice {
    const file: seq<Byte>
    const start: nat
    const size: nat
    var pos: nat
    var left: nat

    constructor (file: seq<Byte>, offset: nat, size: nat)
      ensures this.file == file && start == offset && this.size == size
      ensures pos == offset && left == size && Valid()
    {
      this.file, this.start, this.size := file, offset, size;
      pos, left := offset, size;
    }

    ghost predicate Valid()
      reads this
    {
      start <= pos && pos + left == start + size && (pos > start ==> pos <= |file|)
    }

    /** What the region holds. */
    ghost function Region(): seq<Byte> {
      if start >= |file| then []
      else if start + size <= |file| then file[start..start + size]
      else file[start..]
    }

    /** What has been read so far. */
    ghost function Delivered(): seq<Byte>
      requires Valid()
      reads this
    {
      if pos == start then [] else file[start..pos]
    }

    /** What has been read never leaves the region. */
    lemma DeliveredIsWithin()
      requires Valid()
      ensures Delivered() <= Region()
    {
    }

    /** A fresh stream over all of the file behind its start. */
    lemma WholeRest()
      requires Valid() && pos == start && start + size == |file|
      ensures Delivered() == [] && Region() == file[start..]
    {
    }

    /** Everything has been delivered exactly when no more may be read or the file ends here. */
    lemma DeliveredIsAllIff()
      requires Valid()
      ensures Delivered() == Region() <==> left == 0 || pos >= |file|
    {
      assert |Region()| == if start >= |file| then 0 else if start + size <= |file| then size else |file| - start;
      assert |Delivered()| == pos - start;
      DeliveredIsWithin();
    }

    method FileRead(want: nat) returns (data: seq<Byte>)
      requires Valid() && want <= left
      ensures |data| <= want
      ensures pos + |data| <= |file| || data == []
      ensures data != [] ==> data == file[pos..pos + |data|]
      ensures data == [] <==> want == 0 || pos >= |file|
    {
      if want == 0 || pos >= |file| {
        return [];
      }
      var got: int := *;
      if got < 1 || got > want || pos + got > |file| {
        got := 1;
      }
      data := file[pos..pos + got];
    }

    /** Moves on behind what was read. */
    method Advance(data: seq<Byte>)
      requires Valid() && |data| <= left
      requires data != [] ==> pos + |data| <= |file| && data == file[pos..pos + |data|]
      modifies this`pos, this`left
      ensures Valid() && left == old(left) - |data|
      ensures Delivered() == old(Delivered()) + data
    {
      if data == [] {
        assert Delivered() + data == Delivered();
      } else {
        assert file[start..pos + |data|] == file[start..pos] + file[pos..pos + |data|];
        pos := pos + |data|;
        left := left - |data|;
      }
    }

    /** One read into a buffer of the given length. It appends to what was delivered, stays within the
        region, and gives nothing only for an empty buffer or at the region's end. */
    method ReadInto(buffer: nat) returns (data: seq<Byte>)
      requires Valid()
      modifies this`pos, this`left
      ensures Valid() && |data| <= buffer
      ensures Delivered() == old(Delivered()) + data
      ensures Delivered() <= Region()
      ensures left == old(left) - |data|
      ensures data == [] <==> buffer == 0 || old(Delivered()) == Region()
    {
      hide Delivered, Region, Valid;
      DeliveredIsAllIff();
      DeliveredIsWithin();
      if left == 0 {
        data := [];
        assert Delivered() == Delivered() + data;
        return;
      }
      var want := if buffer < left then buffer else left;
      data := FileRead(want);
      Advance(data);
      DeliveredIsWithin();
    }

    /** Reads with the given buffers one after another: the bytes are the next ones of the region. */
    method ReadAll(buffers: seq<nat>) returns (out: seq<Byte>)
      requires Valid()
      modifies this`pos, this`left
      ensures Valid()
      ensures Delivered() == old(Delivered()) + out
      ensures Delivered() <= Region()
    {
      DeliveredIsWithin();
      hide Delivered, Region, Valid;
      out := [];
      for i := 0 to |buffers|
        invariant Valid() && Delivered() == old(Delivered()) + out
        invariant Delivered() <= Region()
      {
        ghost var before := out;
        var data := ReadInto(buffers[i]);
        out := out + data;
        Regroup(old(Delivered()), before, data);
      }
    }

    /** Reads with one non-empty buffer until nothing comes: the whole region has been delivered. */
    method Drain(buffer: nat) returns (out: seq<Byte>)
      requires Valid() && buffer > 0
      modifies this`pos, this`left
      ensures Valid()
      ensures old(Delivered()) + out == Delivered() == Region()
    {
      hide Delivered, Region, Valid;
      out := [];
      var data := ReadInto(buffer);
      while data != []
        invariant Valid() && Delivered() == old(Delivered()) + out + data
        invariant data == [] ==> Delivered() == Region()
        decreases left, |data|
      {
        out := out + data;
        ghost var before := out;
        data := ReadInto(buffer);
        Regroup(old(Delivered()), before, data);
      }
    }
  }

  /** Opening an archive and reading its payload to the end gives the file without its header lines. */
  method ExtractPayload(file: seq<Byte>, skip: Option<nat>, buffer: nat) returns (spec: Spec, payload: seq<Byte>)
    requires buffer > 0
    ensures spec.Payload? ==>
              skip.Some? && skip.value <= |Lines(file)| && Joined(Lines(file)[..skip.value]) + payload == file
    ensures !spec.Payload? ==> payload == []
  {
    hide Lines, Joined, Detect, LineLength;
    spec := ReadPayloadSpec(file, skip);
    payload := [];
    if spec.Payload? {
      var slice := new Slice(file, spec.offset, spec.size);
      slice.WholeRest();
      ghost var region := slice.Region();
      payload := slice.Drain(buffer);
      assert slice.Region() == region && payload == region;
      assert file[..spec.offset] + file[spec.offset..] == file;
    }
  }
}
