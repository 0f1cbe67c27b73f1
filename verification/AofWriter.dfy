/**
The two in-memory buffers of the append-only log and how they reach the disk.

`Writer` flushes the command buffer to the log file, and survives writes that are short or
fail and truncations that fail.  `RewriteBuffer` holds, in blocks, what was executed since
a rewrite child was forked.  A system call takes its result from a script of outcomes.
*/
module AofWriter {
  import opened Options

  // One write call: bytes taken (at most what was offered), interrupted, or failed.
  datatype Call = Wrote(n: nat) | Interrupted | Failed

  datatype Policy = Always | EverySec | Never

  // Everything one flush learns from the outside.
  datatype Env = Env(
    calls: seq<Call>,         // the outcomes of successive writes; after the last, writes fail
    truncateOk: bool,
    fsyncOk: bool,
    fsyncInProgress: bool,
    childActive: bool,
    now: int
  )

  function Min(a: nat, b: nat): nat {
    if a < b then a else b
  }

  // What a write of `len` bytes achieves once `tot` are written: the total, or None.
  function Written(len: nat, tot: nat, calls: seq<Call>): (r: Option<nat>)
    requires tot <= len
    ensures r.Some? ==> tot <= r.value <= len
    ensures r.None? ==> tot == 0 && len > 0
    decreases |calls|
  {
    if tot == len then Some(tot)
    else if calls == [] || calls[0].Failed? then (if tot > 0 then Some(tot) else None)
    else if calls[0].Interrupted? then Written(len, tot, calls[1..])
    else Written(len, tot + Min(calls[0].n, len - tot), calls[1..])
  }

  // The bytes that the calls are ready to take before one fails.
  function Supply(calls: seq<Call>): nat {
    if calls == [] || calls[0].Failed? then 0
    else (if calls[0].Wrote? then calls[0].n else 0) + Supply(calls[1..])
  }

  /** Retrying writes as much as the calls take before one fails, and fails only if that is nothing. */
  lemma {:induction false} WrittenExactly(len: nat, tot: nat, calls: seq<Call>)
    requires tot <= len
    ensures var t := Min(len, tot + Supply(calls));
      Written(len, tot, calls) == if t == 0 && len > 0 then None else Some(t)
    decreases |calls|
  {
    if tot < len && calls != [] && !calls[0].Failed? {
      WrittenExactly(len, if calls[0].Wrote? then tot + Min(calls[0].n, len - tot) else tot, calls[1..]);
    }
  }

  // Every call takes at least `size` bytes.
  predicate Generous(calls: seq<Call>, size: nat) {
    forall i :: 0 <= i < |calls| ==> calls[i].Wrote? && calls[i].n >= size
  }

  class Writer {
    var file: string          // what is on disk, opened for appending
    var buf: string           // aof_buf
    var currentSize: nat      // aof_current_size
    var lastWriteOk: bool
    var postponedStart: int
    var fsyncOffset: nat
    var lastFsync: int
    const policy: Policy
    const noFsyncOnRewrite: bool

    ghost var Initial: string
    ghost var Fed: string

    // Nothing is lost, duplicated or reordered, and the size is known.
    ghost predicate Valid()
      reads this
    {
      file + buf == Initial + Fed && currentSize == |file|
    }

    constructor (file: string, policy: Policy, noFsyncOnRewrite: bool, now: int)
      ensures Valid() && Initial == file && Fed == "" && buf == "" && this.policy == policy
    {
      this.file, buf, currentSize := file, "", |file|;
      lastWriteOk, postponedStart, fsyncOffset, lastFsync := true, 0, |file|, now;
      this.policy, this.noFsyncOnRewrite := policy, noFsyncOnRewrite;
      Initial, Fed := file, "";
    }

    method Feed(s: string)
      requires Valid()
      modifies this`buf, this`Fed
      ensures Valid() && buf == old(buf) + s && Fed == old(Fed) + s
    {
      buf := buf + s;
      Fed := Fed + s;
      assert file + (old(buf) + s) == (file + old(buf)) + s;
    }

    // Write, retrying after interruptions and short writes: the total written, or None.
    method Write(calls: seq<Call>) returns (written: Option<nat>)
      modifies this`file
      ensures written == Written(|buf|, 0, calls)
      ensures file == if written.Some? then old(file) + buf[..written.value] else old(file)
    {
      var tot: nat, i: nat := 0, 0;
      while tot < |buf|
        invariant tot <= |buf| && i <= |calls| && buf == old(buf)
        invariant file == old(file) + buf[..tot]
        invariant Written(|buf|, 0, calls) == Written(|buf|, tot, calls[i..])
        decreases |calls| - i, |buf| - tot
      {
        if i == |calls| || calls[i].Failed? {
          return if tot > 0 then Some(tot) else None;
        }
        if calls[i].Wrote? {
          var n := Min(calls[i].n, |buf| - tot);
          file := file + buf[tot..tot + n];
          assert buf[..tot] + buf[tot..tot + n] == buf[..tot + n];
          tot := tot + n;
        }
        i := i + 1;
      }
      written := Some(tot);
    }

    // Is the write put off because a background fsync is running?
    predicate Postpones(force: bool, env: Env)
      reads this
    {
      policy.EverySec? && !force && env.fsyncInProgress && (postponedStart == 0 || env.now - postponedStart < 2)
    }

    // Only part of the buffer, or nothing, has been written: take it back, or give up when every
    // write must succeed, or keep the rest for the next time.
    method ShortWrite(written: Option<nat>, env: Env, ghost before: string) returns (exited: bool)
      requires before + buf == Initial + Fed && currentSize == |before|
      requires written.Some? ==> written.value <= |buf|
      requires file == if written.Some? then before + buf[..written.value] else before
      modifies this`file, this`lastWriteOk, this`currentSize, this`buf
      ensures !exited ==> Valid()
      ensures exited ==> policy.Always? && file <= Initial + Fed
      ensures if written == None || env.truncateOk then file == before && buf == old(buf) && (exited || !lastWriteOk)
              else file == old(file) && (exited || (buf == old(buf)[written.value..] && !lastWriteOk))
    {
      exited := false;
      var nwritten := written;
      if nwritten.Some? {
        assert before + buf == file + buf[nwritten.value..];
        if env.truncateOk {
          file := file[..currentSize];
          assert file == before;
          nwritten := None;
        }
      }
      if policy.Always? {
        return true;
      }
      lastWriteOk := false;
      if nwritten.Some? && nwritten.value > 0 {
        currentSize := currentSize + nwritten.value;
        buf := buf[nwritten.value..];
      }
    }

    // The flush.  `exited` means the process stopped; then the file still holds a prefix of
    // everything fed.
    method Flush(force: bool, env: Env) returns (exited: bool)
      requires Valid()
      modifies this
      ensures Initial == old(Initial) && Fed == old(Fed)
      ensures !exited ==> Valid()
      ensures exited ==> policy.Always? && file <= Initial + Fed
      ensures var n := Written(|old(buf)|, 0, env.calls);
              if old(buf) == "" || old(Postpones(force, env)) then file == old(file) && buf == old(buf)
              else if n == Some(|old(buf)|) then file == old(file) + old(buf) && buf == "" && lastWriteOk
              else if n == None || env.truncateOk then file == old(file) && buf == old(buf) && (exited || !lastWriteOk)
              else file == old(file) + old(buf)[..n.value]
                   && (exited || (buf == old(buf)[n.value..] && !lastWriteOk))
    {
      exited := false;
      if |buf| == 0 {
        if policy.EverySec? && fsyncOffset != currentSize && env.now > lastFsync && !env.fsyncInProgress {
          exited := TryFsync(env, false);
        }
        return;
      }
      var syncing := policy.EverySec? && env.fsyncInProgress;
      if policy.EverySec? && !force && syncing {
        if postponedStart == 0 {
          postponedStart := env.now;
          return;
        } else if env.now - postponedStart < 2 {
          return;
        }
      }
      ghost var all := file + buf;
      hide Written;
      var nwritten := Write(env.calls);
      postponedStart := 0;
      if nwritten != Some(|buf|) {
        exited := ShortWrite(nwritten, env, old(file));
        return;
      }
      lastWriteOk := true;
      currentSize := currentSize + nwritten.value;
      assert buf[..|buf|] == buf;
      buf := "";
      assert file + buf == all;
      exited := TryFsync(env, syncing);
    }

    // Is it time to synchronise the file?
    predicate Due(env: Env)
      reads this
    {
      !(noFsyncOnRewrite && env.childActive) && (policy.Always? || (policy.EverySec? && env.now > lastFsync))
    }

    // A synchronisation under way in the background is not doubled.
    method TryFsync(env: Env, syncing: bool) returns (exited: bool)
      modifies this`fsyncOffset, this`lastFsync
      ensures exited == (old(Due(env)) && policy.Always? && !env.fsyncOk)
      ensures fsyncOffset == (if old(Due(env)) && !exited && (policy.Always? || !syncing) then currentSize else old(fsyncOffset))
      ensures lastFsync == (if old(Due(env)) && !exited then env.now else old(lastFsync))
    {
      exited := false;
      if noFsyncOnRewrite && env.childActive {
        return;
      }
      if policy.Always? {
        if !env.fsyncOk {
          return true;
        }
        fsyncOffset, lastFsync := currentSize, env.now;
      } else if policy.EverySec? && env.now > lastFsync {
        if !syncing {
          fsyncOffset := currentSize;
        }
        lastFsync := env.now;
      }
    }
  }

  // ------------------------------------------------------------------- the rewrite buffer

  function Concat(blocks: seq<string>): string {
    if blocks == [] then "" else Concat(blocks[..|blocks| - 1]) + blocks[|blocks| - 1]
  }

  lemma {:induction false} ConcatFront(blocks: seq<string>)
    requires blocks != []
    ensures Concat(blocks) == blocks[0] + Concat(blocks[1..])
  {
    if |blocks| > 1 {
      var front := blocks[..|blocks| - 1];
      ConcatFront(front);
      assert front[1..] == blocks[1..][..|blocks| - 2];
    } else {
      assert blocks[..0] == [] && blocks[1..] == [];
    }
  }

  class RewriteBuffer {
    const blockSize: nat      // AOF_RW_BUF_BLOCK_SIZE
    var blocks: seq<string>   // the used part of each block
    var stopSending: bool     // aof_stop_sending_diff

    ghost predicate Valid()
      reads this
    {
      blockSize > 0 && forall i :: 0 <= i < |blocks| ==> 0 < |blocks[i]| <= blockSize
    }

    function Contents(): string
      reads this
    {
      Concat(blocks)
    }

    constructor (blockSize: nat)
      requires blockSize > 0
      ensures Valid() && Contents() == "" && !stopSending
    {
      this.blockSize, blocks, stopSending := blockSize, [], false;
    }

    method Append(s: string)
      requires Valid()
      modifies this`blocks
      ensures Valid() && Contents() == old(Contents()) + s
    {
      hide Concat;
      var rest := s;
      assert old(Contents()) + s[..0] == old(Contents());
      while |rest| > 0
        invariant Roomy() && |rest| <= |s| && rest == s[|s| - |rest|..]
        invariant |rest| == 0 ==> Valid()
        invariant Contents() == old(Contents()) + s[..|s| - |rest|]
        decreases |rest|, if HasRoom() then 0 else 1
      {
        ghost var done := |s| - |rest|;
        if |blocks| > 0 {
          var last := |blocks| - 1;
          var len := Min(blockSize - |blocks[last]|, |rest|);
          if len > 0 {
            GrowLast(blocks, rest[..len]);
            blocks := blocks[last := blocks[last] + rest[..len]];
            assert s[..done] + rest[..len] == s[..done + len];
            rest := rest[len..];
          }
        }
        if |rest| > 0 {
          AddLast(blocks, "");
          assert Contents() + "" == Contents();
          blocks := blocks + [""];
        }
      }
      assert s[..|s|] == s;
    }

    // While appending, the last block may be new and still empty.
    ghost predicate Roomy()
      reads this
    {
      && blockSize > 0
      && (forall i :: 0 <= i < |blocks| ==> |blocks[i]| <= blockSize)
      && (forall i :: 0 <= i < |blocks| - 1 ==> 0 < |blocks[i]|)
    }

    ghost predicate HasRoom()
      reads this
    {
      |blocks| > 0 && |blocks[|blocks| - 1]| < blockSize
    }

    // Send to the child what the pipe takes, unless the child has asked to stop.
    method SendDiff(calls: seq<Call>) returns (sent: string)
      requires Valid()
      modifies this`blocks
      ensures Valid() && sent + Contents() == old(Contents())
      ensures stopSending ==> sent == ""
      ensures !stopSending && |calls| >= |old(blocks)| && Generous(calls, blockSize) ==> blocks == []
    {
      hide Concat;
      sent := "";
      var i := 0;
      assert "" + Contents() == Contents();
      while true
        invariant Valid() && i <= |calls|
        invariant sent + Contents() == old(Contents())
        invariant stopSending ==> sent == ""
        invariant |calls| >= |old(blocks)| && Generous(calls, blockSize) ==> |calls| - i >= |blocks|
        decreases |calls| - i
      {
        if stopSending || |blocks| == 0 {
          return;
        }
        if i == |calls| || !calls[i].Wrote? || calls[i].n == 0 {
          return;
        }
        var block := blocks[0];
        var n := Min(calls[i].n, |block|);
        ConcatFront(blocks);
        ghost var tail := Concat(blocks[1..]);
        assert sent + (block + tail) == (sent + block[..n]) + (block[n..] + tail);
        sent := sent + block[..n];
        if n == |block| {
          blocks := blocks[1..];
          assert block[n..] + tail == tail;
        } else {
          ghost var shrunk := blocks[0 := block[n..]];
          ConcatFront(shrunk);
          assert shrunk[1..] == blocks[1..];
          blocks := blocks[0 := block[n..]];
        }
        i := i + 1;
      }
    }

    // Append all blocks to a file, each with one write that must be complete.
    method WriteAll(calls: seq<Call>) returns (written: string, ok: bool)
      requires Valid()
      ensures written <= Contents() && (ok ==> written == Contents())
      ensures |calls| >= |blocks| && Generous(calls, blockSize) ==> ok
    {
      written := "";
      assert blocks[..0] == [];
      for i := 0 to |blocks|
        invariant written == Concat(blocks[..i])
      {
        assert blocks[..i + 1][..i] == blocks[..i];
        PrefixConcat(blocks, i);
        PrefixConcat(blocks, i + 1);
        if i >= |calls| || !calls[i].Wrote? {
          return written, false;
        }
        var n := Min(calls[i].n, |blocks[i]|);
        if n != |blocks[i]| {
          ghost var before := written;
          written := written + blocks[i][..n];
          assert written <= before + blocks[i];
          return written, false;
        }
        written := written + blocks[i];
      }
      assert blocks[..|blocks|] == blocks;
      ok := true;
    }

    method Reset()
      modifies this`blocks
      ensures blocks == [] && Contents() == ""
    {
      blocks := [];
    }
  }

  lemma GrowLast(blocks: seq<string>, t: string)
    requires blocks != []
    ensures var k := |blocks| - 1; Concat(blocks[k := blocks[k] + t]) == Concat(blocks) + t
  {
    var k := |blocks| - 1;
    assert blocks[k := blocks[k] + t][..k] == blocks[..k];
  }

  lemma AddLast(blocks: seq<string>, t: string)
    ensures Concat(blocks + [t]) == Concat(blocks) + t
  {
    assert (blocks + [t])[..|blocks|] == blocks;
  }

  lemma {:induction false} PrefixConcat(blocks: seq<string>, i: nat)
    requires i <= |blocks|
    ensures Concat(blocks[..i]) <= Concat(blocks)
    decreases |blocks| - i
  {
    if i < |blocks| {
      PrefixConcat(blocks, i + 1);
      assert blocks[..i + 1][..i] == blocks[..i];
    } else {
      assert blocks[..i] == blocks;
    }
  }
}
