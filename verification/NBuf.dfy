/** The sliding byte buffer (src/n_buf.c, src/n_buf.h): bytes between start and end of a fixed array. */
module NBufs {
  import opened Basics

  /** What read(2) has to offer: bytes, end of file, nothing now, or an error. */
  datatype Got = Data(bytes: string) | EndOfFile | WouldBlock | Failed

  class NBuf {
    const buf: array<char>
    var start: nat
    var end: nat

    /** n_buf_check */
    ghost predicate Valid()
      reads this
    {
      start <= end <= buf.Length
    }

    ghost function Contents(): string
      requires Valid()
      reads this, buf
    {
      buf[start..end]
    }

    /** n_buf_init */
    constructor (size: nat)
      ensures Valid() && Contents() == "" && buf.Length == size && fresh(buf)
    {
      buf := new char[size];
      start, end := 0, 0;
    }

    /** Part of another buffer's memory, as bc_io_cb gives it to a handler (src/botz.c). */
    constructor Window(memory: array<char>, from: nat, to: nat)
      requires from <= to <= memory.Length
      ensures Valid() && buf == memory && start == from && end == to && Contents() == memory[from..to]
    {
      buf, start, end := memory, from, to;
    }

    /** n_buf_length */
    method Length() returns (n: nat)
      requires Valid()
      ensures n == |Contents()|
    {
      return end - start;
    }

    /** n_buf_clear */
    method Clear()
      requires Valid()
      modifies this
      ensures Valid() && Contents() == ""
    {
      start, end := 0, 0;
    }

    /** n_buf_pullup: move the contents to the front of the array. */
    method Pullup()
      requires Valid()
      modifies this, buf
      ensures Valid() && Contents() == old(Contents()) && start == 0
    {
      if start > 0 {
        var n := end - start;
        for i := 0 to n
          invariant Valid() && start == old(start) && end == old(end)
          invariant buf[..i] == old(buf[start..start + i])
          invariant buf[start + i..end] == old(buf[start + i..end])
        {
          assert buf[start + i..end][0] == old(buf[start + i..end])[0];
          buf[i] := buf[start + i];
          assert old(buf[start..start + i + 1]) == old(buf[start..start + i]) + [old(buf[start + i])];
          assert old(buf[start + i + 1..end]) == old(buf[start + i..end])[1..];
        }
        start, end := 0, n;
      }
    }

    /** n_buf_fill: make room and append what read(2) gives, as much as fits; a full buffer is an error. */
    method Fill(got: Got) returns (eof: bool, err: bool, took: string)
      requires Valid()
      modifies this, buf
      ensures Valid() && Contents() == old(Contents()) + took
      ensures err <==> |old(Contents())| == buf.Length || got.Failed?
      ensures eof <==> !err && got.EndOfFile?
      ensures if got.Data? && !err then took <= got.bytes else took == ""
      ensures got.Data? && !err ==>
        |took| == if |got.bytes| < buf.Length - |old(Contents())| then |got.bytes| else buf.Length - |old(Contents())|
    {
      Pullup();
      eof, err, took := false, false, "";
      if end == buf.Length {
        return false, true, "";
      }
      match got {
        case Failed => err := true;
        case EndOfFile => eof := true;
        case WouldBlock =>
        case Data(bytes) =>
          var n := if |bytes| < buf.Length - end then |bytes| else buf.Length - end;
          Append(bytes[..n]);
          took := bytes[..n];
      }
    }

    /** The copy into the buffer. */
    method Append(s: string)
      requires Valid() && |s| <= buf.Length - end
      modifies this, buf
      ensures Valid() && Contents() == old(Contents()) + s && start == old(start)
    {
      for i := 0 to |s|
        invariant start == old(start) && end == old(end)
        invariant buf[start..end + i] == old(buf[start..end]) + s[..i]
      {
        buf[end + i] := s[i];
        assert buf[start..end + i + 1] == buf[start..end + i] + [s[i]];
      }
      end := end + |s|;
    }

    /** n_buf_write: append as much as fits. */
    method Write(s: string) returns (n: nat)
      requires Valid()
      modifies this, buf
      ensures Valid() && n <= |s| && Contents() == old(Contents()) + s[..n]
      ensures n == |s| || |Contents()| == buf.Length
    {
      Pullup();
      n := if buf.Length - end < |s| then buf.Length - end else |s|;
      Append(s[..n]);
    }

    /** n_buf_drain, when write(2) takes up to n bytes, or fails, having taken none; with nothing to write it is not
        called. */
    method Drain(n: nat, fails: bool) returns (eof: bool, err: bool, sent: string)
      requires Valid()
      modifies this, buf
      ensures Valid() && old(Contents()) == sent + Contents() && (eof <==> Contents() == "")
      ensures err <==> fails && old(Contents()) != ""
      ensures |sent| == if err then 0 else if n < |old(Contents())| then n else |old(Contents())|
    {
      err, sent := fails && start < end, "";
      if !err {
        var k := if n < end - start then n else end - start;
        sent := buf[start..start + k];
        if k > 0 {
          start := start + k;
          Pullup();
        }
      }
      eof := start == end;
    }

    /** n_buf_get: consume exactly len bytes, or none. */
    method Get(len: nat) returns (msg: Option<string>)
      requires Valid()
      modifies `start
      ensures Valid()
      ensures match msg
              case None => |old(Contents())| < len && Contents() == old(Contents())
              case Some(m) => |m| == len && old(Contents()) == m + Contents()
    {
      if end - start < len {
        return None;
      }
      msg := Some(buf[start..start + len]);
      start := start + len;
    }

    /** n_buf_get_msg: consume the first line; its newline is overwritten in place. */
    method GetMsg() returns (msg: Option<string>)
      requires Valid()
      modifies `start, buf
      ensures Valid()
      ensures match msg
              case None => '\n' !in old(Contents()) && Contents() == old(Contents())
              case Some(line) => '\n' !in line && old(Contents()) == line + "\n" + Contents()
      ensures old(start) <= start && buf[..old(start)] == old(buf[..start]) && buf[end..] == old(buf[end..])
    {
      var i := start;
      while i < end && buf[i] != '\n'
        invariant start <= i <= end && '\n' !in buf[start..i]
      {
        i := i + 1;
      }
      if i == end {
        return None;
      }
      assert buf[start..end] == buf[start..i] + "\n" + buf[i + 1..end];
      msg := Some(buf[start..i]);
      buf[i] := '\0';
      start := i + 1;
    }
  }
}
