// Inspecting a request body without losing it: what has been read is kept in memory, then in a file,
// and the request goes on with a body that replays it (internal/codexonly/session_affinity.go).

module ReplayStore {
  import opened Wrappers
  import opened Bytes

  /** Which error it was; the source compares errors only with io.EOF. */
  type ErrorCode = int

  /** io.ErrShortWrite. */
  const SHORT_WRITE: ErrorCode := 0

  const MEMORY_BYTES := 65536
  const READ_BYTES := 32768

  /** What a reader hands out, in order: bytes, and errors it may go on after. At the end it says EOF. */
  datatype Item = Data(value: Byte) | Error(code: ErrorCode)

  datatype End = More | Eof | Failed(code: ErrorCode)

  function Items(bytes: seq<Byte>): (items: seq<Item>)
    ensures |items| == |bytes| && forall i :: 0 <= i < |items| ==> items[i] == Data(bytes[i])
  {
    seq(|bytes|, i requires 0 <= i < |bytes| => Data(bytes[i]))
  }

  /** What somebody gets who reads a stream up to its first error: the bytes, then that error or EOF. */
  function Delivered(items: seq<Item>): (seq<Byte>, Option<ErrorCode>) {
    if |items| == 0 then ([], None)
    else if items[0].Error? then ([], Some(items[0].code))
    else ([items[0].value] + Delivered(items[1..]).0, Delivered(items[1..]).1)
  }

  lemma {:induction false} DeliveredAppend(bytes: seq<Byte>, rest: seq<Item>)
    ensures Delivered(Items(bytes) + rest) == (bytes + Delivered(rest).0, Delivered(rest).1)
  {
    if |bytes| == 0 {
      assert Items(bytes) + rest == rest && bytes + Delivered(rest).0 == Delivered(rest).0;
    } else {
      var all := Items(bytes) + rest;
      assert all[1..] == Items(bytes[1..]) + rest;
      DeliveredAppend(bytes[1..], rest);
      assert bytes + Delivered(rest).0 == [bytes[0]] + (bytes[1..] + Delivered(rest).0);
    }
  }

  /** What is known of the part of the original body that has been read. */
  ghost predicate IsRead(done: seq<Item>, stored: seq<Byte>, error: Option<ErrorCode>, offset: nat) {
    if error.None? then done == Items(stored)
    else
      && offset < |done| && offset <= |stored| && done[offset] == Error(error.value)
      && done[..offset] == Items(stored[..offset])
  }

  /** The rebuilt body delivers what the original one would have. */
  lemma CutBodyIsFaithful(before: seq<Byte>, code: ErrorCode, behind: seq<Item>)
    ensures Delivered(Items(before) + [Error(code)]) == (before, Some(code))
    ensures Delivered(Items(before) + ([Error(code)] + behind)) == (before, Some(code))
  {
    DeliveredAppend(before, [Error(code)]);
    DeliveredAppend(before, [Error(code)] + behind);
    assert before + Delivered([Error(code)]).0 == before;
  }

  lemma RebuiltBodyIsFaithful(
    done: seq<Item>, rest: seq<Item>, stored: seq<Byte>, error: Option<ErrorCode>, offset: nat, left: seq<Item>)
    requires IsRead(done, stored, error, offset)
    requires error.None? ==> left == rest
    ensures Delivered(Rebuilt(stored, error, offset, left)) == Delivered(done + rest)
  {
    if error.Some? {
      var before, behind := stored[..offset], done[offset + 1..] + rest;
      CutBodyIsFaithful(before, error.value, behind);
      assert done + rest == Items(before) + ([Error(error.value)] + behind);
      assert offset == |stored| ==> before == stored;
    }
  }

  /** sessionAffinityReplayStore.body: the readers that the new body reads one after the other. */
  function Rebuilt(stored: seq<Byte>, error: Option<ErrorCode>, offset: nat, rest: seq<Item>): seq<Item> {
    if error.Some? then
      Items(if offset < |stored| then stored[..offset] else stored) + [Error(error.value)]
    else Items(stored) + rest
  }

  // ----- the readers -----

  /** The original body. It gives at most as many bytes as asked for, and an error at once or later. */
  class OriginalBody {
    var rest: seq<Item>

    constructor (items: seq<Item>)
      ensures rest == items
    {
      rest := items;
    }

    method Read(size: nat) returns (data: seq<Byte>, end: End)
      modifies this
      ensures |data| <= size && Items(data) + EndItem(end) + rest == old(rest)
      ensures end.Eof? ==> |rest| == 0
      ensures size > 0 && |data| == 0 ==> !end.More?
    {
      data := [];
      ghost var all := rest;
      while |rest| > 0 && rest[0].Data? && |data| < size
        invariant |data| <= size && Items(data) + rest == all
        decreases |rest|
      {
        if |data| > 0 {
          if * {
            break;
          }
        }
        assert Items(data + [rest[0].value]) + rest[1..] == Items(data) + rest;
        data := data + [rest[0].value];
        rest := rest[1..];
      }
      end := More;
      var endsNow: bool := *;
      if |data| == 0 || endsNow {
        if |rest| == 0 {
          end := Eof;
        } else if rest[0].Error? {
          end := Failed(rest[0].code);
          rest := rest[1..];
        }
      }
    }
  }

  function EndItem(end: End): seq<Item> {
    if end.Failed? then [Error(end.code)] else []
  }

  /** sessionAffinitySourceReader: remembers the first error and how many bytes came before it. */
  class SourceReader {
    const reader: OriginalBody
    var bytesRead: nat
    var err: Option<ErrorCode>
    var errorOffset: nat

    constructor (reader: OriginalBody)
      ensures this.reader == reader && bytesRead == 0 && err == None
    {
      this.reader, bytesRead, err, errorOffset := reader, 0, None, 0;
    }

    /** `done` is the part of the original body that has been read, `stored` all bytes in it. */
    ghost predicate HasRead(done: seq<Item>, stored: seq<Byte>)
      reads this
    {
      IsRead(done, stored, err, errorOffset) && bytesRead == |stored|
    }

    method Read(size: nat, ghost done: seq<Item>, ghost stored: seq<Byte>) returns (data: seq<Byte>, end: End)
      requires HasRead(done, stored)
      modifies this, reader
      ensures |data| <= size && Items(data) + EndItem(end) + reader.rest == old(reader.rest)
      ensures HasRead(done + Items(data) + EndItem(end), stored + data)
      ensures end.Eof? ==> |reader.rest| == 0
      ensures size > 0 && |data| == 0 ==> !end.More?
      ensures end.Failed? ==> err.Some?
    {
      data, end := reader.Read(size);
      bytesRead := bytesRead + |data|;
      ReadData(done, stored, err, errorOffset, data);
      if end.Failed? {
        if err.None? {
          err, errorOffset := Some(end.code), bytesRead;
        }
      } else {
        assert done + Items(data) + EndItem(end) == done + Items(data);
      }
    }
  }

  lemma ReadData(done: seq<Item>, stored: seq<Byte>, error: Option<ErrorCode>, offset: nat, data: seq<Byte>)
    requires IsRead(done, stored, error, offset)
    ensures IsRead(done + Items(data), stored + data, error, offset)
  {
    if error.None? {
      assert done + Items(data) == Items(stored + data);
    } else {
      assert (done + Items(data))[..offset] == done[..offset] && (stored + data)[..offset] == stored[..offset];
    }
  }

  // ----- the store -----

  /** sessionAffinityReplayStore; `file` is what is on disk, which may be more than was reported written. */
  class ReplayStore {
    var memory: seq<Byte>
    var file: Option<seq<Byte>>
    var fileBytes: nat
    var tail: seq<Byte>
    var spillErr: Option<ErrorCode>

    constructor ()
      ensures Valid() && |Stored()| == 0 && spillErr.None?
    {
      memory, file, fileBytes, tail, spillErr := [], None, 0, [], None;
    }

    /** Never more than 64 KiB in memory; a tail only after a write to the file fell short. */
    ghost predicate Valid()
      reads this
    {
      && |memory| <= MEMORY_BYTES
      && (if file.Some? then |memory| == 0 && fileBytes <= |file.value| else fileBytes == 0 && |tail| == 0)
      && (spillErr.None? ==> |tail| == 0 && (file.Some? ==> fileBytes == |file.value|))
    }

    /** The bytes that replayReader hands out. */
    function Stored(): seq<Byte>
      requires file.Some? ==> fileBytes <= |file.value|
      reads this
    {
      (if file.Some? && fileBytes > 0 then file.value[..fileBytes] else memory) + tail
    }

    /** A write to a file, which may stop anywhere and may leave more than it reports. */
    method WriteFile(content: seq<Byte>, data: seq<Byte>) returns (after: seq<Byte>, n: nat, err: Option<ErrorCode>)
      ensures n <= |data| && content + data[..n] <= after
      ensures n == |data| && err.None? ==> after == content + data
    {
      n, err := |data|, *;
      after := content + data;
      var short: nat :| true;
      if short < |data| {
        n := short;
        var leftover: seq<Byte> := *;
        after := content + data[..n] + leftover;
      }
    }

    method SpillToFile() returns (err: Option<ErrorCode>)
      requires Valid() && file.None? && spillErr.None?
      modifies this
      ensures Valid() && Stored() == old(Stored()) && spillErr.None?
      ensures if err.None? then file.Some? else file.None? && memory == old(memory)
    {
      err := *;
      if err.Some? {
        return;
      }
      var content: seq<Byte>, n: nat;
      content, n, err := WriteFile([], memory);
      if err.None? && n != |memory| {
        err := Some(SHORT_WRITE);
      }
      if err.Some? {
        return;
      }
      assert content == memory;
      fileBytes, memory, file := n, [], Some(content);
      assert file.value[..fileBytes] == old(memory);
    }

    method PrepareRead(size: nat) returns (err: Option<ErrorCode>)
      requires Valid() && size <= READ_BYTES && spillErr.None?
      modifies this
      ensures Valid() && Stored() == old(Stored()) && spillErr.None?
      ensures err.None? ==> file.Some? || |memory| + size <= MEMORY_BYTES
    {
      if file.Some? || |memory| + size <= MEMORY_BYTES {
        return None;
      }
      err := SpillToFile();
    }

    method Append(data: seq<Byte>) returns (err: Option<ErrorCode>)
      requires Valid() && spillErr.None? && |data| > 0
      requires file.Some? || |memory| + |data| <= MEMORY_BYTES
      modifies this
      ensures Valid() && Stored() == old(Stored()) + data && spillErr == err
    {
      if file.None? {
        memory := memory + data;
        err := None;
      } else {
        err := AppendToFile(data);
      }
    }

    method AppendToFile(data: seq<Byte>) returns (err: Option<ErrorCode>)
      requires Valid() && file.Some? && spillErr.None? && |data| > 0
      modifies this
      ensures Valid() && Stored() == old(Stored()) + data && spillErr == err
    {
      ghost var before := file.value;
      var content, n;
      content, n, err := WriteFile(file.value, data);
      file, fileBytes := Some(content), fileBytes + n;
      if n < |data| {
        assert tail + data[n..] == data[n..];
        tail := tail + data[n..];
        if err.None? {
          err := Some(SHORT_WRITE);
        }
      }
      spillErr := err;
      assert content[..fileBytes] == before + data[..n];
      assert n == |data| ==> data[..n] == data;
      assert (before + data[..n]) + data[n..] == before + data;
    }
  }

  // ----- inspecting a request -----

  /** sessionAffinityReplayReader: what the JSON decoder reads from. */
  class ReplayReader {
    const source: SourceReader
    const replay: ReplayStore

    constructor (source: SourceReader, replay: ReplayStore)
      ensures this.source == source && this.replay == replay
    {
      this.source, this.replay := source, replay;
    }

    /** What was read of the original body is stored, byte for byte, in order. */
    ghost predicate Keeps(done: seq<Item>)
      reads source, replay
    {
      replay.Valid() && source.HasRead(done, replay.Stored())
    }

    method Read(size: nat, ghost done: seq<Item>) returns (data: seq<Byte>, end: End, ghost done': seq<Item>)
      requires Keeps(done)
      modifies source, source.reader, replay
      ensures Keeps(done') && done' + source.reader.rest == done + old(source.reader.rest)
      ensures |data| <= size && done <= done' && (end.Eof? ==> |source.reader.rest| == 0)
      ensures end.Failed? ==> source.err.Some? || replay.spillErr.Some?
      ensures size > 0 && end.More? ==> |source.reader.rest| < old(|source.reader.rest|)
      ensures |replay.memory| <= MEMORY_BYTES
    {
      if replay.spillErr.Some? {
        return [], Failed(replay.spillErr.value), done;
      }
      var limit := if size > READ_BYTES then READ_BYTES else size;
      var err := replay.PrepareRead(limit);
      if err.Some? {
        replay.spillErr := err;
        return [], Failed(err.value), done;
      }
      data, end, done' := ReadAndKeep(limit, done);
    }

    method ReadAndKeep(limit: nat, ghost done: seq<Item>) returns (data: seq<Byte>, end: End, ghost done': seq<Item>)
      requires Keeps(done) && replay.spillErr.None?
      requires replay.file.Some? || |replay.memory| + limit <= MEMORY_BYTES
      modifies source, source.reader, replay
      ensures Keeps(done') && done' + source.reader.rest == done + old(source.reader.rest)
      ensures |data| <= limit && done <= done' && (end.Eof? ==> |source.reader.rest| == 0)
      ensures end.Failed? ==> source.err.Some? || replay.spillErr.Some?
      ensures limit > 0 && end.More? ==> |source.reader.rest| < old(|source.reader.rest|)
    {
      ghost var stored := replay.Stored();
      data, end := source.Read(limit, done, stored);
      done' := done + Items(data) + EndItem(end);
      if |data| == 0 {
        assert stored + data == stored;
        return;
      }
      var err := replay.Append(data);
      if err.Some? {
        end := Failed(err.value);
      }
    }
  }

  /**
   * extractSessionAffinityJSONSignals: the decoder reads as often and as much as it likes; then the rest
   * is read as well, unless something has failed. The request's new body delivers exactly what the
   * original one would have.
   */
  method InspectBody(original: OriginalBody) returns (body: seq<Item>)
    modifies original
    ensures Delivered(body) == Delivered(old(original.rest))
  {
    var source := new SourceReader(original);
    var replay := new ReplayStore();
    var reader := new ReplayReader(source, replay);
    ghost var all, done: seq<Item> := original.rest, [];
    assert done == Items(replay.Stored());
    var calls: nat :| true;
    for i := 0 to calls
      invariant reader.source == source && reader.replay == replay && source.reader == original
      invariant reader.Keeps(done) && done + original.rest == all
    {
      var size: nat :| true;
      var data, end;
      data, end, done := reader.Read(size, done);
    }
    if source.err.None? && replay.spillErr.None? {
      done := ReadToTheEnd(reader, done);
    }
    var stored := replay.Stored();
    body := Rebuilt(
      stored, source.err, source.errorOffset, if replay.spillErr.Some? then original.rest else []);
    RebuiltBodyIsFaithful(
      done, original.rest, stored, source.err, source.errorOffset,
      if replay.spillErr.Some? then original.rest else []);
  }

  /** io.Copy to io.Discard. */
  method ReadToTheEnd(reader: ReplayReader, ghost done: seq<Item>) returns (ghost done': seq<Item>)
    requires reader.Keeps(done)
    modifies reader.source, reader.source.reader, reader.replay
    ensures reader.Keeps(done') && done' + reader.source.reader.rest == done + old(reader.source.reader.rest)
    ensures |reader.source.reader.rest| == 0 || reader.source.err.Some? || reader.replay.spillErr.Some?
  {
    done' := done;
    var data, end;
    data, end, done' := reader.Read(READ_BYTES, done');
    while end.More?
      invariant reader.Keeps(done') && done' + reader.source.reader.rest == done + old(reader.source.reader.rest)
      invariant end.Eof? ==> |reader.source.reader.rest| == 0
      invariant end.Failed? ==> reader.source.err.Some? || reader.replay.spillErr.Some?
      decreases end.More?, |reader.source.reader.rest|
    {
      data, end, done' := reader.Read(READ_BYTES, done');
    }
  }
}
