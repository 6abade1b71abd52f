/** The buffered log writer: cutting a stream of writes into messages of one size. */
module LogWriter {
  import opened Arithmetic

  type Bytes = seq<bv8>

  const DEFAULT_SIZE := 65536

  // ---------- cutting ----------

  /** The full chunks of a byte string. */
  function Full(s: Bytes, size: nat): seq<Bytes>
    requires size > 0
  {
    if |s| < size then [] else [s[..size]] + Full(s[size..], size)
  }

  /** What is left after them. */
  function Tail(s: Bytes, size: nat): Bytes
    requires size > 0
  {
    if |s| < size then s else Tail(s[size..], size)
  }

  function Join(parts: seq<Bytes>): Bytes {
    if parts == [] then [] else parts[0] + Join(parts[1..])
  }

  lemma {:induction false} CutKeepsBytes(s: Bytes, size: nat)
    requires size > 0
    ensures Join(Full(s, size)) + Tail(s, size) == s && |Tail(s, size)| < size
    decreases |s|
  {
    if |s| >= size {
      var head, rest := s[..size], s[size..];
      CutKeepsBytes(rest, size);
      JoinCons(head, Full(rest, size));
      assert head + Join(Full(rest, size)) + Tail(rest, size) == head + (Join(Full(rest, size)) + Tail(rest, size));
      assert s == head + rest;
    }
  }

  lemma {:induction false} FewChunks(s: Bytes, size: nat)
    requires size > 0
    ensures |Full(s, size)| <= |s|
    decreases |s|
  {
    if |s| >= size { FewChunks(s[size..], size); }
  }

  lemma JoinCons(head: Bytes, parts: seq<Bytes>)
    ensures Join([head] + parts) == head + Join(parts)
  {
    assert ([head] + parts)[1..] == parts;
  }

  lemma {:induction false} FullAreFull(s: Bytes, size: nat, i: nat)
    requires size > 0 && i < |Full(s, size)|
    ensures |Full(s, size)[i]| == size
    decreases i
  {
    if i > 0 { FullAreFull(s[size..], size, i - 1); }
  }

  /** Cutting more bytes only depends on the tail of those already cut. */
  lemma {:induction false} CutAppends(s: Bytes, p: Bytes, size: nat)
    requires size > 0
    ensures Full(s + p, size) == Full(s, size) + Full(Tail(s, size) + p, size)
    ensures Tail(s + p, size) == Tail(Tail(s, size) + p, size)
  {
    if |s| >= size {
      CutAppends(s[size..], p, size);
      assert (s + p)[..size] == s[..size] && (s + p)[size..] == s[size..] + p;
    }
  }

  lemma {:induction false} JoinAppends(a: seq<Bytes>, b: seq<Bytes>)
    ensures Join(a + b) == Join(a) + Join(b)
  {
    if a == [] {
      assert a + b == b;
    } else {
      JoinAppends(a[1..], b);
      assert a + b == [a[0]] + (a[1..] + b) && a == [a[0]] + a[1..];
      JoinCons(a[0], a[1..] + b);
      JoinCons(a[0], a[1..]);
      assert a[0] + (Join(a[1..]) + Join(b)) == a[0] + Join(a[1..]) + Join(b);
    }
  }

  lemma JoinOne(b: Bytes)
    ensures Join([b]) == b
  {
    assert [b][1..] == [];
  }

  lemma ChunkAt(all: Bytes, off: nat, size: nat)
    requires size > 0 && off + size <= |all|
    ensures Full(all[off..], size) == [all[off..off + size]] + Full(all[off + size..], size)
    ensures Tail(all[off..], size) == Tail(all[off + size..], size)
  {
    assert all[off..][..size] == all[off..off + size] && all[off..][size..] == all[off + size..];
  }

  lemma Times(i: nat, n: nat, size: nat)
    requires i < n
    ensures i * size + size == (i + 1) * size <= n * size
  {
    Grows(i + 1, n, size);
  }

  lemma Whole(length: nat, size: nat)
    requires size > 0
    ensures var rest := length % size;
      0 <= rest < size && (length - rest) / size * size == length - rest && length - rest >= 0
  {
    var q := length / size;
    assert length - length % size == q * size;
    Grows(0, q, size);
    DivisionIs(q * size, size, q, 0);
  }

  // ---------- memory ----------

  /** Go's copy to the front of `dst`, for memory that may overlap. */
  method Move(dst: array<bv8>, src: array<bv8>, from: nat, count: nat)
    requires from + count <= src.Length && count <= dst.Length
    modifies dst
    ensures dst[..count] == old(src[from..from + count])
  {
    ghost var was := src[from..from + count];
    for i := 0 to count
      invariant forall k :: 0 <= k < i ==> dst[k] == was[k]
      invariant forall k :: i <= k < count ==> src[from + k] == was[k]
    {
      dst[i] := src[from + i];
    }
    assert dst[..count] == was;
  }

  method Put(dst: array<bv8>, at: nat, p: Bytes)
    requires at + |p| <= dst.Length
    modifies dst
    ensures dst[..at] == old(dst[..at]) && dst[at..at + |p|] == p
  {
    for i := 0 to |p|
      invariant dst[..at] == old(dst[..at])
      invariant forall k :: 0 <= k < i ==> dst[at + k] == p[k]
    {
      dst[at + i] := p[i];
    }
  }

  lemma Cut(sent0: seq<Bytes>, full: seq<Bytes>, sent: seq<Bytes>, rest: seq<Bytes>)
    requires sent0 + full == sent + rest && |sent0| <= |sent|
    ensures |sent| - |sent0| <= |full| && sent == sent0 + full[..|sent| - |sent0|] && |full| == |sent| - |sent0| + |rest|
  {
    var n := |sent| - |sent0|;
    assert |sent0 + full| == |sent + rest|;
    assert sent == (sent + rest)[..|sent|] == (sent0 + full)[..|sent0| + n] == sent0 + full[..n];
  }

  lemma Regroup(sent: seq<Bytes>, chunk: Bytes, rest: seq<Bytes>)
    ensures sent + ([chunk] + rest) == (sent + [chunk]) + rest
  {
  }

  // ---------- the writer ----------

  class BufferedLog {
    const size: nat
    /** Memory behind the bytes.Buffer; its first `len` bytes are the contents, the rest is spare. */
    var mem: array<bv8>
    var len: nat
    /** What the receiver has been sent, as it was at the time. */
    var sent: seq<Bytes>

    ghost predicate Valid() reads this { size > 0 && len <= mem.Length && len < size }

    ghost function Contents(): Bytes
      requires Valid()
      reads this, mem
    {
      mem[..len]
    }

    constructor (size: int)
      ensures Valid() && Contents() == [] && sent == [] && fresh(mem)
      ensures this.size == if size < 1 then 65536 else size
    {
      this.size := if size < 1 then DEFAULT_SIZE else size;
      this.mem, this.len, this.sent := new bv8[0], 0, [];
    }

    /** Go's append to the contents: in place while there is room, else into new memory with some spare room. */
    method Append(p: Bytes, spare: nat) returns (work: array<bv8>)
      requires Valid()
      modifies mem
      ensures work == mem || fresh(work)
      ensures len + |p| <= work.Length && work[..len + |p|] == old(Contents()) + p
      ensures Contents() == old(Contents())
    {
      work := mem;
      if len + |p| > mem.Length {
        work := new bv8[len + |p| + spare];
        Move(work, mem, 0, len);
      }
      Put(work, len, p);
      assert work[..len + |p|] == work[..len] + work[len..len + |p|];
    }

    /** Reset and refill the buffer with bytes that may lie in its own memory. */
    method Refill(work: array<bv8>, from: nat, to: nat, spare: nat)
      requires size > 0 && from <= to <= work.Length && to - from < size
      modifies this`mem, this`len, mem
      ensures Valid() && Contents() == old(work[from..to])
      ensures mem == old(mem) || fresh(mem)
    {
      len := 0;
      var target := mem;
      if to - from > mem.Length { target := new bv8[to - from + spare]; }
      Move(target, work, from, to - from);
      mem, len := target, to - from;
    }

    /** The chunk loop: sends until the receiver fails, which it does after `sends` messages. */
    method SendChunks(work: array<bv8>, length: nat, chunks: nat, sends: nat) returns (ok: bool)
      requires size > 0 && length <= work.Length && chunks * size <= length < chunks * size + size
      modifies this`sent
      ensures var full := Full(work[..length], size);
        ok == (|full| <= sends) && sent == old(sent) + if ok then full else full[..sends]
      ensures ok ==> Tail(work[..length], size) == work[chunks * size..length]
    {
      ghost var all := work[..length];
      assert all[0..] == all;
      for i := 0 to chunks
        invariant i <= sends && i * size <= length
        invariant |sent| == |old(sent)| + i && old(sent) + Full(all, size) == sent + Full(all[i * size..], size)
        invariant Tail(all, size) == Tail(all[i * size..], size)
      {
        var offset := i * size;
        Times(i, chunks, size);
        ChunkAt(all, offset, size);
        if i == sends {
          Cut(old(sent), Full(all, size), sent, Full(all[offset..], size));
          return false;
        }
        assert work[offset..offset + size] == all[offset..offset + size];
        Regroup(sent, all[offset..offset + size], Full(all[offset + size..], size));
        sent := sent + [work[offset..offset + size]];
      }
      assert all[chunks * size..] == work[chunks * size..length];
      return true;
    }

    /**
     Sends every full chunk of the buffered and new bytes and keeps the rest. If the receiver fails
     after `sends` messages, those are gone, the error is returned and the buffer is as it was.
     */
    method Write(p: Bytes, sends: nat, spare: nat) returns (n: nat, ok: bool)
      requires Valid()
      modifies this, mem
      ensures Valid() && (mem == old(mem) || fresh(mem))
      ensures var chunks := Full(old(Contents()) + p, size);
        && ok == (|chunks| <= sends)
        && sent == old(sent) + (if ok then chunks else chunks[..sends])
        && Contents() == (if ok then Tail(old(Contents()) + p, size) else old(Contents()))
        && n == if ok then |p| else 0
    {
      var work := Append(p, spare);
      var length := len + |p|;
      var remain := length % size;
      var chunks := (length - remain) / size;
      Whole(length, size);
      ok := SendChunks(work, length, chunks, sends);
      if !ok { return 0, false; }
      Refill(work, if remain > 0 then chunks * size else length, length, spare);
      return |p|, true;
    }

    /** A whole upload to a receiver that never fails: every write in turn, then one flush. */
    method SendAll(writes: seq<Bytes>, spare: nat)
      requires Valid() && Contents() == [] && sent == []
      modifies this, mem
      ensures Valid() && sent == Flushed(Run(writes, size).0, Run(writes, size).1)
      ensures Join(sent) == Join(writes)
    {
      for i := 0 to |writes|
        invariant Valid() && (mem == old(mem) || fresh(mem))
        invariant sent == Run(writes[..i], size).0 && Contents() == Run(writes[..i], size).1
      {
        assert writes[..i + 1][..i] == writes[..i];
        FewChunks(Contents() + writes[i], size);
        var n, ok := Write(writes[i], len + |writes[i]|, spare);
      }
      assert writes[..|writes|] == writes;
      MessagesAreTheBytes(writes, size);
      var n, ok := Flush(true);
    }

    /** Sends what is buffered, and keeps it. */
    method Flush(reachable: bool) returns (n: nat, ok: bool)
      requires Valid()
      modifies this`sent
      ensures ok == (reachable || Contents() == [])
      ensures sent == old(sent) + (if ok && Contents() != [] then [Contents()] else [])
      ensures n == if ok then |Contents()| else 0
    {
      if len > 0 {
        if !reachable { return 0, false; }
        sent := sent + [mem[..len]];
        return len, true;
      }
      return 0, true;
    }
  }

  // ---------- whole runs ----------

  /** Messages sent and bytes retained after error-free writes, as Write's contract gives them. */
  function Run(writes: seq<Bytes>, size: nat): (seq<Bytes>, Bytes)
    requires size > 0
  {
    if writes == [] then ([], [])
    else
      var (sent, kept) := Run(writes[..|writes| - 1], size);
      var all := kept + writes[|writes| - 1];
      (sent + Full(all, size), Tail(all, size))
  }

  /** How the bytes were divided into writes leaves no trace in what is sent. */
  lemma {:induction false} RunCutsTheWhole(writes: seq<Bytes>, size: nat)
    requires size > 0
    ensures Run(writes, size) == (Full(Join(writes), size), Tail(Join(writes), size))
  {
    if writes != [] {
      var n := |writes| - 1;
      RunCutsTheWhole(writes[..n], size);
      assert writes == writes[..n] + [writes[n]];
      JoinAppends(writes[..n], [writes[n]]);
      JoinOne(writes[n]);
      CutAppends(Join(writes[..n]), writes[n], size);
    }
  }

  function Flushed(sent: seq<Bytes>, kept: Bytes): seq<Bytes> { if kept == [] then sent else sent + [kept] }

  /**
   After any writes and one flush the messages hold exactly the bytes written; all but the last have
   the configured size and the last is no longer; less than one message is ever retained.
   */
  lemma MessagesAreTheBytes(writes: seq<Bytes>, size: nat)
    requires size > 0
    ensures var (sent, kept) := Run(writes, size);
      var messages := Flushed(sent, kept);
      && |kept| < size
      && Join(messages) == Join(writes)
      && (forall i :: 0 <= i < |messages| - 1 ==> |messages[i]| == size)
      && (messages != [] ==> 0 < |messages[|messages| - 1]| <= size)
  {
    RunCutsTheWhole(writes, size);
    var (sent, kept) := Run(writes, size);
    CutKeepsBytes(Join(writes), size);
    forall i | 0 <= i < |sent| ensures |sent[i]| == size { FullAreFull(Join(writes), size, i); }
    JoinAppends(sent, [kept]);
    JoinOne(kept);
    if kept == [] { assert Join(sent) + kept == Join(sent); }
  }

  /** Flush does not empty the buffer: a second one repeats the tail, exactly when there is one. */
  lemma SecondFlushRepeatsIff(writes: seq<Bytes>, size: nat)
    requires size > 0
    ensures var (sent, kept) := Run(writes, size);
      Join(Flushed(Flushed(sent, kept), kept)) == Join(writes) <==> |Join(writes)| % size == 0
  {
    var (sent, kept) := Run(writes, size);
    MessagesAreTheBytes(writes, size);
    RunCutsTheWhole(writes, size);
    TailLength(Join(writes), size);
    if kept != [] {
      JoinAppends(Flushed(sent, kept), [kept]);
      JoinOne(kept);
      assert |Join(writes) + kept| != |Join(writes)|;
    }
  }

  lemma {:induction false} TailLength(s: Bytes, size: nat)
    requires size > 0
    ensures |Tail(s, size)| == |s| % size
    decreases |s|
  {
    if |s| >= size {
      TailLength(s[size..], size);
      LessOne(|s|, size);
    } else {
      DivisionIs(|s|, size, 0, |s|);
    }
  }
}
