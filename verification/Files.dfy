/**
 Files on the modem: the byte loops of upload and download, replacing a file, and the round
 trip between them.
 */
module Files {
  import opened Common
  import opened Modem

  type FileMap = map<string, seq<byte>>

  const SUCCESS: int := 0

  // ---- what the modem does and answers ----

  /** AT+QFDEL: refused; done and confirmed; or done with the OK lost. */
  datatype DeleteReply = Refused | Deleted | DeletedUnheard

  /** AT+QFUPL: no CONNECT; `n` bytes stored and reported; or no report, with some of the bytes
      stored or no file at all. */
  datatype UploadReply = NoConnect | Reported(n: nat) | Unreported(kept: Option<nat>)

  function Prefix(bytes: seq<byte>, n: nat): seq<byte> {
    bytes[..Min(n, |bytes|)]
  }

  function AfterDelete(files: FileMap, name: string, r: DeleteReply): FileMap {
    if r.Refused? then files else files - {name}
  }

  predicate DeleteHeard(files: FileMap, name: string, r: DeleteReply) {
    name in files && r.Deleted?
  }

  /** The modem opens an upload for a new name only. */
  predicate Opens(files: FileMap, name: string, r: UploadReply) {
    name !in files && !r.NoConnect?
  }

  function AfterUpload(files: FileMap, name: string, bytes: seq<byte>, r: UploadReply): FileMap {
    if !Opens(files, name, r) then files
    else
      match r
      case Reported(n) => files[name := Prefix(bytes, n)]
      case Unreported(Some(n)) => files[name := Prefix(bytes, n)]
      case _ => files
  }

  // ---- the 16-bit upload index ----

  /** The loop index after `k` iterations. */
  function Index16(k: nat): nat {
    if k == 0 then 0 else (Index16(k - 1) + 1) % 0x1_0000
  }

  /** It counts up to 65535 and never gets further. */
  lemma {:induction false} Index16Range(k: nat)
    ensures Index16(k) <= 0xFFFF && (k <= 0xFFFF ==> Index16(k) == k)
  {
    if k > 0 {
      Index16Range(k - 1);
      var i := Index16(k - 1);
      assert (i + 1) % 0x1_0000 == if i < 0xFFFF then i + 1 else 0;
    }
  }

  ghost predicate UploadLoopEnds(size: nat) {
    exists k: nat :: Index16(k) >= size
  }

  /** The upload loop ends exactly for sizes its index can reach. */
  lemma UploadLoopEndsExactly(size: nat)
    ensures UploadLoopEnds(size) <==> size <= 0xFFFF
  {
    if size <= 0xFFFF {
      Index16Range(size);
      assert Index16(size) >= size;
    } else {
      forall k: nat ensures Index16(k) < size {
        Index16Range(k);
      }
    }
  }

  // ---- class BG96 ----

  class BG96 {
    var files: FileMap    // the modem's file system

    method FileExists(name: string, answered: bool) returns (rc: bool)
      ensures rc <==> name in files && answered
    {
      rc := name in files && answered;
    }

    method DeleteFile(name: string, r: DeleteReply) returns (done: bool)
      modifies this
      ensures done <==> DeleteHeard(old(files), name, r)
      ensures files == AfterDelete(old(files), name, r)
    {
      done := name in files && r.Deleted?;
      if !r.Refused? {
        files := files - {name};
      }
    }

    /** The loop both upload functions share: `sent` is what the modem was sent. */
    method PutAll(data: array<byte>, size: nat) returns (sent: seq<byte>)
      requires size <= data.Length && size <= 0xFFFF
      ensures sent == data[..size]
    {
      sent := [];
      var i := 0;
      while i < size
        invariant i <= size && sent == data[..i]
      {
        sent := sent + [data[i]];
        i := (i + 1) % 0x1_0000;
      }
    }

    /** strlen. */
    method StrLen(s: array<byte>, ghost len: nat) returns (n: nat)
      requires len < s.Length && s[len] == 0 && forall k :: 0 <= k < len ==> s[k] != 0
      ensures n == len
    {
      n := 0;
      while s[n] != 0
        invariant n <= len
        decreases len - n
      {
        n := n + 1;
      }
    }

    /**
     send_file with a string of `len` characters. It answers 1 exactly when it left an
     existing file alone as told, or the modem reported an upload, of whatever size; the file
     is the string with its NUL exactly when that size is the string's. Without leave to
     override, an existing file is never touched; with it, a failure after the deletion loses
     the old file.
     */
    method SendFile(content: array<byte>, ghost len: nat, name: string, overrideOk: bool,
                    listed: bool, d: DeleteReply, u: UploadReply) returns (good: int)
      requires len < content.Length && content[len] == 0 && forall k :: 0 <= k < len ==> content[k] != 0
      requires len + 1 <= 0xFFFF
      modifies this
      ensures var exists' := name in old(files) && listed;
        && (good == 1 <==>
              if exists' then !overrideOk || (d.Deleted? && u.Reported?) else name !in old(files) && u.Reported?)
        && (good == 0 || good == 1)
        && (good == 1 && !(exists' && !overrideOk) ==>
              && files == old(files)[name := Prefix(content[..len + 1], u.n)]
              && (files[name] == content[..len + 1] <==> u.n >= len + 1))
        && (name in old(files) && !overrideOk ==> files == old(files))
        && (name in old(files) && good == 0 ==>
              if !exists' || d.Refused? then files == old(files)
              else name !in files || files[name] <= content[..len + 1])
      ensures files - {name} == old(files) - {name}
    {
      var filesize := StrLen(content, len);
      filesize := filesize + 1;
      var there := FileExists(name, listed);
      if there {
        if overrideOk {
          var done := DeleteFile(name, d);
          if !done {
            return 0;
          }
        } else {
          return 1;
        }
      }
      if !Opens(files, name, u) {
        return 0;
      }
      var sent := PutAll(content, filesize);
      files := AfterUpload(files, name, sent, u);
      good := if u.Reported? then 1 else 0;
    }

    /** fs_file_size; the size is set only on success. */
    method FileSize(name: string, answered: bool) returns (rc: int, size: nat)
      ensures if name in files && answered then rc == SUCCESS && size == |files[name]| else rc == DEVICE_ERROR
    {
      if name in files && answered {
        return SUCCESS, |files[name]|;
      }
      return DEVICE_ERROR, 0;
    }

    /** fs_upload_file; `lsize` is passed by reference, in as `size` and out. */
    method UploadFile(name: string, data: array<byte>, size: nat, u: UploadReply) returns (rc: int, lsize: nat)
      requires size <= data.Length && size <= 0xFFFF
      modifies this
      ensures files == AfterUpload(old(files), name, data[..size], u)
      ensures !Opens(old(files), name, u) ==> rc == -1 && lsize == 0
      ensures Opens(old(files), name, u) && u.Reported? ==> rc == SUCCESS && lsize == u.n
      ensures Opens(old(files), name, u) && !u.Reported? ==> rc == DEVICE_ERROR && lsize == size
    {
      lsize := size;
      if !Opens(files, name, u) {
        lsize := 0;
        return -1, lsize;
      }
      var sent := PutAll(data, lsize);
      files := AfterUpload(files, name, sent, u);
      if !u.Reported? {
        rc := DEVICE_ERROR;
      } else {
        lsize := u.n;
        rc := SUCCESS;
      }
    }

    /** fs_download_file: reads the announced number of bytes off the line, where the file and
        then the modem's closing text come; `closed` tells whether that text was understood. */
    method DownloadFile(name: string, data: array<byte>, size: nat, connected: bool, tail: byte, closed: bool)
      returns (rc: int, filesize: nat)
      requires size <= data.Length
      modifies data
      ensures rc == SUCCESS <==> name in files && connected && closed && size == |files[name]|
      ensures filesize == if rc == SUCCESS then size else 0
      ensures rc == SUCCESS ==> data[..size] == files[name]
      ensures forall k :: size <= k < data.Length ==> data[k] == old(data[k])
    {
      if !(name in files && connected) {
        return DEVICE_ERROR, 0;
      }
      var line := files[name];
      var i := 0;
      while i < size
        invariant i <= size
        invariant forall k :: 0 <= k < i ==> data[k] == if k < |line| then line[k] else tail
        invariant forall k :: i <= k < data.Length ==> data[k] == old(data[k])
      {
        data[i] := if i < |line| then line[i] else tail;
        i := i + 1;
      }
      if closed && size == |line| {
        return SUCCESS, size;
      }
      return DEVICE_ERROR, 0;
    }
  }

  // ---- class FSImplementation ----

  class FSImplementation {
    const bg96: BG96

    constructor (bg96: BG96)
      ensures this.bg96 == bg96
    {
      this.bg96 := bg96;
    }

    method FileSize(name: string, answered: bool) returns (size: nat)
      ensures size == if name in bg96.files && answered then |bg96.files[name]| else 0
    {
      var rc;
      rc, size := bg96.FileSize(name, answered);
      if rc != SUCCESS {
        size := 0;
      }
    }

    /** Success means: a new file, holding exactly the buffer. */
    method Upload(name: string, data: array<byte>, size: nat, u: UploadReply) returns (rc: int)
      requires size <= data.Length && size <= 0xFFFF
      modifies bg96
      ensures rc == 0 || rc == -1
      ensures rc == 0 <==> name !in old(bg96.files) && u == Reported(size)
      ensures rc == 0 ==> bg96.files == old(bg96.files)[name := data[..size]]
      ensures bg96.files - {name} == old(bg96.files) - {name}
      ensures name in old(bg96.files) ==> bg96.files == old(bg96.files)
    {
      var r, lsize := bg96.UploadFile(name, data, size, u);
      rc := if r == SUCCESS && lsize == size then 0 else -1;
      assert data[..size][..size] == data[..size];
    }

    method Download(name: string, data: array<byte>, sized: bool, connected: bool, tail: byte, closed: bool)
      returns (size: nat)
      requires name in bg96.files ==> |bg96.files[name]| <= data.Length
      modifies data
      ensures name in bg96.files && sized && connected && closed ==>
        size == |bg96.files[name]| && data[..size] == bg96.files[name]
      ensures size > 0 ==> name in bg96.files && size == |bg96.files[name]| && data[..size] == bg96.files[name]
    {
      var fsize := FileSize(name, sized);
      var rc;
      rc, fsize := bg96.DownloadFile(name, data, fsize, connected, tail, closed);
      size := if rc == SUCCESS then fsize else 0;
    }

    /** The two ends together: a buffer uploaded under a new name, whenever that succeeds, comes
        back from an undisturbed download with the same size and bytes. */
    method RoundTrip(name: string, data: array<byte>, size: nat, u: UploadReply, back: array<byte>, tail: byte)
      returns (rc: int, got: nat)
      requires size <= data.Length && size <= 0xFFFF && size <= back.Length && back != data
      modifies bg96, back
      ensures name !in old(bg96.files) && u == Reported(size) ==> rc == 0
      ensures rc == 0 ==> got == size && back[..got] == data[..size]
    {
      got := 0;
      rc := Upload(name, data, size, u);
      if rc == 0 {
        got := Download(name, back, true, true, tail, true);
      }
    }
  }
}
