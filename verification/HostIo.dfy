/** The byte stream of a checkpoint. Plain bytes are copied at once; tensor contents are only noted,
    and moved when the reader or writer is destroyed. */
module HostIo {
  import opened Wrappers
  import opened Rows

  /** These bytes stand at place a of the buffer. */
  ghost predicate Stands(buf: seq<Byte>, a: nat, data: seq<Byte>) {
    a + |data| <= |buf| && buf[a..a + |data|] == data
  }

  lemma SplicedStands(was: seq<Byte>, a: nat, data: seq<Byte>)
    requires a + |data| <= |was|
    ensures Stands(Splice(was, a, data), a, data)
  {
  }

  /** Writing before or behind it leaves a stretch standing. */
  lemma StillStands(was: seq<Byte>, a: nat, data: seq<Byte>, b: nat, d: seq<Byte>)
    requires a + |data| <= |was| && Stands(was, b, d) && (b + |d| <= a || a + |data| <= b)
    ensures Stands(Splice(was, a, data), b, d)
  {
    SpliceKeeps(was, a, data, b, b + |d|);
  }

  lemma StandsInLonger(s: seq<Byte>, longer: seq<Byte>, a: nat, d: seq<Byte>)
    requires Stands(s, a, d) && s <= longer
    ensures Stands(longer, a, d)
  {
    assert longer[a..a + |d|] == s[a..a + |d|];
  }

  lemma LastStands(s: seq<Byte>, more: seq<Byte>, all: seq<Byte>)
    requires all == s + more
    ensures Stands(all, |s|, more) && s <= all
  {
    assert all[|s|..|s| + |more|] == more;
  }

  lemma LongerPrefix(buf: seq<Byte>, x: seq<Byte>, d: seq<Byte>, all: seq<Byte>)
    requires x <= buf && Stands(buf, |x|, d) && all == x + d
    ensures all <= buf
  {
    assert buf[..|x| + |d|] == buf[..|x|] + buf[|x|..|x| + |d|];
  }

  // ---- byte strings end to end ----

  function Offset(ps: seq<seq<Byte>>, n: nat): nat
    requires n <= |ps|
  {
    if n == 0 then 0 else Offset(ps, n - 1) + |ps[n - 1]|
  }

  function Concat(ps: seq<seq<Byte>>, n: nat): (r: seq<Byte>)
    requires n <= |ps|
    ensures |r| == Offset(ps, n)
  {
    if n == 0 then [] else Concat(ps, n - 1) + ps[n - 1]
  }

  lemma {:induction false} ConcatAt(ps: seq<seq<Byte>>, n: nat, k: nat)
    requires k < n <= |ps|
    ensures Stands(Concat(ps, n), Offset(ps, k), ps[k])
  {
    LastStands(Concat(ps, n - 1), ps[n - 1], Concat(ps, n));
    if k < n - 1 {
      ConcatAt(ps, n - 1, k);
      StandsInLonger(Concat(ps, n - 1), Concat(ps, n), Offset(ps, k), ps[k]);
    }
  }

  ghost predicate StandsAt(buf: seq<Byte>, ps: seq<seq<Byte>>, k: nat) {
    k < |ps| && Stands(buf, Offset(ps, k), ps[k])
  }

  lemma {:induction false} ConcatIs(buf: seq<Byte>, ps: seq<seq<Byte>>, n: nat)
    requires n <= |ps| && forall k: nat {:trigger StandsAt(buf, ps, k)} :: k < n ==> StandsAt(buf, ps, k)
    ensures Concat(ps, n) <= buf
  {
    if n > 0 {
      ConcatIs(buf, ps, n - 1);
      assert StandsAt(buf, ps, n - 1);
      LongerPrefix(buf, Concat(ps, n - 1), ps[n - 1], Concat(ps, n));
    }
  }

  // ---- the calls ----

  /** One call: some bytes, or a stretch of a tensor. */
  datatype Op = Plain(data: seq<Byte>) | Tensor(t: nat, offset: nat, size: nat)
  {
    function Size(): nat {
      match this
      case Plain(data) => |data|
      case Tensor(_, _, size) => size
    }
  }

  type Memory = seq<seq<Byte>>

  predicate InMemory(op: Op, mem: Memory) {
    op.Tensor? ==> op.t < |mem| && op.offset + op.size <= |mem[op.t]|
  }

  /** What the call stands for in the stream. */
  function Piece(op: Op, mem: Memory): (r: seq<Byte>)
    requires InMemory(op, mem)
    ensures |r| == op.Size()
  {
    match op
    case Plain(data) => data
    case Tensor(t, offset, size) => mem[t][offset..offset + size]
  }

  ghost predicate AllInMemory(ops: seq<Op>, mem: Memory) {
    forall k {:trigger InMemory(ops[k], mem)} :: 0 <= k < |ops| ==> InMemory(ops[k], mem)
  }

  /** Where the n-th call's bytes begin. */
  function Start(ops: seq<Op>, n: nat): nat
    requires n <= |ops|
  {
    if n == 0 then 0 else Start(ops, n - 1) + ops[n - 1].Size()
  }

  function Pieces(ops: seq<Op>, mem: Memory): (r: seq<seq<Byte>>)
    requires AllInMemory(ops, mem)
    ensures |r| == |ops| && forall k :: 0 <= k < |ops| ==> r[k] == Piece(ops[k], mem)
  {
    seq(|ops|, k requires 0 <= k < |ops| && InMemory(ops[k], mem) => Piece(ops[k], mem))
  }

  lemma {:induction false} OffsetIsStart(ops: seq<Op>, ps: seq<seq<Byte>>, n: nat)
    requires n <= |ops| == |ps| && forall k :: 0 <= k < |ops| ==> |ps[k]| == ops[k].Size()
    ensures Offset(ps, n) == Start(ops, n)
  {
    if n > 0 {
      OffsetIsStart(ops, ps, n - 1);
    }
  }

  /** The stream that the calls stand for. */
  function Stream(ops: seq<Op>, mem: Memory): (r: seq<Byte>)
    requires AllInMemory(ops, mem)
    ensures |r| == Start(ops, |ops|)
  {
    var ps := Pieces(ops, mem);
    OffsetIsStart(ops, ps, |ops|);
    Concat(ps, |ps|)
  }

  /** One noted tensor stretch and where it belongs in the buffer. */
  datatype Note = Note(op: Op, at: nat)

  /** The tensor calls among the first n, with their places. */
  function Notes(ops: seq<Op>, n: nat): (r: seq<Note>)
    requires n <= |ops|
    ensures |r| <= n
  {
    if n == 0 then []
    else if ops[n - 1].Tensor? then Notes(ops, n - 1) + [Note(ops[n - 1], Start(ops, n - 1))]
    else Notes(ops, n - 1)
  }

  lemma {:induction false} StartsGrow(ops: seq<Op>, j: nat, n: nat)
    requires j <= n <= |ops|
    ensures Start(ops, j) <= Start(ops, n)
  {
    if j < n {
      StartsGrow(ops, j, n - 1);
    }
  }

  lemma {:induction false} StartPrefix(ops: seq<Op>, more: seq<Op>, n: nat)
    requires n <= |ops|
    ensures Start(ops + more, n) == Start(ops, n) && Notes(ops + more, n) == Notes(ops, n)
  {
    if n > 0 {
      StartPrefix(ops, more, n - 1);
    }
  }

  /** The bytes of call k stand in the buffer. */
  ghost predicate InPlace(buf: seq<Byte>, ops: seq<Op>, mem: Memory, k: nat)
    requires k < |ops| && InMemory(ops[k], mem)
  {
    Stands(buf, Start(ops, k), Piece(ops[k], mem))
  }

  ghost predicate AllInPlace(src: seq<Byte>, ops: seq<Op>, mem: Memory)
    requires AllInMemory(ops, mem)
  {
    forall k: nat {:trigger InPlace(src, ops, mem, k)} :: k < |ops| ==> InPlace(src, ops, mem, k)
  }

  lemma PlacesMakeStream(buf: seq<Byte>, ops: seq<Op>, mem: Memory)
    requires AllInMemory(ops, mem) && AllInPlace(buf, ops, mem)
    ensures Stream(ops, mem) <= buf
  {
    var ps := Pieces(ops, mem);
    forall k: nat {:trigger StandsAt(buf, ps, k)} | k < |ops|
      ensures StandsAt(buf, ps, k)
    {
      assert InPlace(buf, ops, mem, k);
      OffsetIsStart(ops, ps, k);
    }
    ConcatIs(buf, ps, |ps|);
  }

  /** `llama_io_write_dummy`: counts instead of writing. */
  method CountBytes(ops: seq<Op>, skipTensors: bool) returns (n: nat)
    ensures !skipTensors ==> n == Start(ops, |ops|)
    ensures skipTensors ==> n + TensorBytes(ops, |ops|) == Start(ops, |ops|)
  {
    n := 0;
    for k := 0 to |ops|
      invariant n + (if skipTensors then TensorBytes(ops, k) else 0) == Start(ops, k)
    {
      if ops[k].Plain? || !skipTensors {
        n := n + ops[k].Size();
      }
    }
  }

  function TensorBytes(ops: seq<Op>, n: nat): nat
    requires n <= |ops|
  {
    if n == 0 then 0 else TensorBytes(ops, n - 1) + if ops[n - 1].Tensor? then ops[n - 1].size else 0
  }

  /** The tensor bytes are the sizes of the noted stretches. */
  lemma {:induction false} TensorBytesAreNoted(ops: seq<Op>, n: nat)
    requires n <= |ops|
    ensures TensorBytes(ops, n) == NotedBytes(Notes(ops, n), |Notes(ops, n)|)
  {
    if n > 0 {
      TensorBytesAreNoted(ops, n - 1);
      if ops[n - 1].Tensor? {
        NotedPrefix(Notes(ops, n - 1), [Note(ops[n - 1], Start(ops, n - 1))], |Notes(ops, n - 1)|);
      }
    }
  }

  /** The bytes of the first k notes. */
  function NotedBytes(notes: seq<Note>, k: nat): nat
    requires k <= |notes|
  {
    if k == 0 then 0 else NotedBytes(notes, k - 1) + notes[k - 1].op.Size()
  }

  lemma {:induction false} NotedPrefix(notes: seq<Note>, more: seq<Note>, k: nat)
    requires k <= |notes|
    ensures NotedBytes(notes + more, k) == NotedBytes(notes, k)
  {
    if k > 0 {
      NotedPrefix(notes, more, k - 1);
    }
  }

  // ---- writing ----

  /** `llama_io_write_host` */
  class HostWriter {
    const buf: array<Byte>
    var at: nat
    var notes: seq<Note>
    /** The calls that went through. */
    ghost var ops: seq<Op>

    ghost predicate Valid()
      reads this, buf
    {
      at == Start(ops, |ops|) <= buf.Length && notes == Notes(ops, |ops|)
      && AllPlainInPlace(buf[..], ops)
    }

    constructor (buf: array<Byte>)
      ensures Valid() && this.buf == buf && at == 0 && ops == []
    {
      this.buf := buf;
      at, notes, ops := 0, [], [];
    }

    /** False stands for the exception at the end of the buffer: nothing is written then. */
    method Write(data: seq<Byte>) returns (ok: bool)
      requires Valid()
      modifies this, buf
      ensures Valid() && ok == (old(at) + |data| <= buf.Length) && at == old(at) + if ok then |data| else 0
      ensures ops == if ok then old(ops) + [Plain(data)] else old(ops)
      ensures buf[..] == if ok then Splice(old(buf[..]), old(at), data) else old(buf[..])
    {
      if |data| > buf.Length - at {
        return false;
      }
      MoreOps(buf[..], Splice(buf[..], at, data), ops, Plain(data));
      OneMoreOp(ops, Plain(data));
      CopyInto(buf, at, data);
      ops := ops + [Plain(data)];
      at := at + |data|;
      return true;
    }

    method WriteTensor(t: nat, offset: nat, size: nat) returns (ok: bool)
      requires Valid()
      modifies this
      ensures Valid() && ok == (old(at) + size <= buf.Length) && at == old(at) + if ok then size else 0
      ensures ops == if ok then old(ops) + [Tensor(t, offset, size)] else old(ops)
    {
      if size > buf.Length - at {
        return false;
      }
      MoreOps(buf[..], buf[..], ops, Tensor(t, offset, size));
      OneMoreOp(ops, Tensor(t, offset, size));
      ops := ops + [Tensor(t, offset, size)];
      notes := notes + [Note(Tensor(t, offset, size), at)];
      at := at + size;
      return true;
    }

    /** The destructor: every noted stretch is fetched now, from the tensors as they are now. */
    method Finish(mem: Memory)
      requires Valid() && AllInMemory(ops, mem)
      modifies buf
      ensures buf[..at] == Stream(ops, mem)
      ensures SameFrom(old(buf[..]), buf[..], at)
    {
      ghost var k: nat := 0;
      PlainsInPlace(buf[..], ops, mem);
      for i := 0 to |notes|
        invariant k <= |ops| && i == |Notes(ops, k)| && Fetched(buf[..], ops, mem, k)
        invariant SameFrom(old(buf[..]), buf[..], at)
      {
        ghost var was := buf[..];
        ghost var j := NextNote(ops, |ops|, k, i);
        NoteFits(ops, mem, j);
        Fetch(mem, notes[i]);
        SkipPlain(was, ops, mem, k, j);
        FetchOne(was, buf[..], ops, mem, j);
        k := j + 1;
      }
      AllFetched(buf[..], ops, mem, k);
    }

    /** One noted stretch. */
    method Fetch(mem: Memory, note: Note)
      requires note.op.Tensor? && InMemory(note.op, mem) && note.at + note.op.size <= buf.Length
      modifies buf
      ensures buf[..] == Splice(old(buf[..]), note.at, Piece(note.op, mem))
    {
      var op := note.op;
      CopyInto(buf, note.at, mem[op.t][op.offset..op.offset + op.size]);
    }
  }

  ghost predicate SameFrom(was: seq<Byte>, now: seq<Byte>, n: nat) {
    |now| == |was| && forall i :: n <= i < |was| ==> now[i] == was[i]
  }

  /** Every plain call and the first k calls of either kind are in place. */
  ghost predicate Fetched(buf: seq<Byte>, ops: seq<Op>, mem: Memory, k: nat)
    requires AllInMemory(ops, mem)
  {
    forall j: nat {:trigger InPlace(buf, ops, mem, j)} ::
      j < |ops| && (j < k || ops[j].Plain?) ==> InPlace(buf, ops, mem, j)
  }

  lemma PlainsInPlace(buf: seq<Byte>, ops: seq<Op>, mem: Memory)
    requires AllInMemory(ops, mem) && AllPlainInPlace(buf, ops)
    ensures Fetched(buf, ops, mem, 0)
  {
    forall j: nat | j < |ops| && ops[j].Plain?
      ensures InPlace(buf, ops, mem, j)
    {
      assert PlainInPlace(buf, ops, j);
    }
  }

  lemma {:induction false} NotesPrefix(ops: seq<Op>, k: nat, n: nat)
    requires k <= n <= |ops|
    ensures Notes(ops, k) <= Notes(ops, n)
  {
    if k < n {
      NotesPrefix(ops, k, n - 1);
    }
  }

  /** The call that note i belongs to: the next tensor call from k on. */
  lemma {:induction false} NextNote(ops: seq<Op>, n: nat, k: nat, i: nat) returns (j: nat)
    requires k <= n <= |ops| && |Notes(ops, k)| == i < |Notes(ops, n)|
    ensures k <= j < n && ops[j].Tensor? && |Notes(ops, j)| == i
    ensures Notes(ops, n)[i] == Note(ops[j], Start(ops, j))
    ensures forall l :: k <= l < j ==> ops[l].Plain?
    decreases n - k
  {
    if k < n && ops[k].Tensor? {
      j := k;
      NotesPrefix(ops, k + 1, n);
      assert Notes(ops, n)[i] == Notes(ops, k + 1)[i];
    } else {
      j := NextNote(ops, n, k + 1, i);
    }
  }

  /** Plain calls are in place already. */
  lemma SkipPlain(buf: seq<Byte>, ops: seq<Op>, mem: Memory, k: nat, j: nat)
    requires AllInMemory(ops, mem) && Fetched(buf, ops, mem, k) && k <= j <= |ops|
    requires forall l :: k <= l < j ==> ops[l].Plain?
    ensures Fetched(buf, ops, mem, j)
  {
  }

  lemma NoteFits(ops: seq<Op>, mem: Memory, k: nat)
    requires AllInMemory(ops, mem) && k < |ops|
    ensures InMemory(ops[k], mem) && Start(ops, k) + ops[k].Size() <= Start(ops, |ops|)
  {
    StartsGrow(ops, k + 1, |ops|);
  }

  lemma PutKeeps(was: seq<Byte>, ops: seq<Op>, data: seq<Byte>, mem: Memory, k: nat, j: nat)
    requires k < |ops| && |data| == ops[k].Size() && Start(ops, k) + |data| <= |was|
    requires j < |ops| && j != k && InMemory(ops[j], mem) && InPlace(was, ops, mem, j)
    ensures InPlace(Splice(was, Start(ops, k), data), ops, mem, j)
  {
    if j < k {
      StartsGrow(ops, j + 1, k);
    } else {
      StartsGrow(ops, k + 1, j);
    }
    StillStands(was, Start(ops, k), data, Start(ops, j), Piece(ops[j], mem));
  }

  /** Fetching the bytes of call k, the calls before it being in place. */
  lemma FetchOne(was: seq<Byte>, now: seq<Byte>, ops: seq<Op>, mem: Memory, k: nat)
    requires AllInMemory(ops, mem) && k < |ops| && Fetched(was, ops, mem, k)
    requires InMemory(ops[k], mem) && Start(ops, k) + ops[k].Size() <= |was|
    requires now == Splice(was, Start(ops, k), Piece(ops[k], mem))
    ensures Fetched(now, ops, mem, k + 1)
  {
    forall j: nat | j < |ops| && (j < k + 1 || ops[j].Plain?)
      ensures InPlace(now, ops, mem, j)
    {
      if j == k {
        SplicedStands(was, Start(ops, k), Piece(ops[k], mem));
      } else {
        PutKeeps(was, ops, Piece(ops[k], mem), mem, k, j);
      }
    }
  }

  /** No notes are left: what follows is plain. */
  lemma {:induction false} NotesDone(ops: seq<Op>, k: nat)
    requires k <= |ops| && |Notes(ops, k)| == |Notes(ops, |ops|)|
    ensures forall j :: k <= j < |ops| ==> ops[j].Plain?
    decreases |ops| - k
  {
    if k < |ops| {
      NotesPrefix(ops, k + 1, |ops|);
      NotesPrefix(ops, k, |ops|);
      NotesDone(ops, k + 1);
    }
  }

  /** The bytes of a plain call, which need no memory. */
  ghost predicate PlainInPlace(buf: seq<Byte>, ops: seq<Op>, k: nat) {
    k < |ops| && ops[k].Plain? && Stands(buf, Start(ops, k), ops[k].data)
  }

  /** Bytes in front of the writing place are not touched by what is written there. */
  lemma PlainStays(was: seq<Byte>, ops: seq<Op>, data: seq<Byte>, k: nat)
    requires PlainInPlace(was, ops, k) && Start(ops, |ops|) + |data| <= |was|
    ensures PlainInPlace(Splice(was, Start(ops, |ops|), data), ops, k)
  {
    StartsGrow(ops, k + 1, |ops|);
    StillStands(was, Start(ops, |ops|), data, Start(ops, k), ops[k].data);
  }

  lemma PlainOfMore(buf: seq<Byte>, ops: seq<Op>, op: Op, k: nat)
    requires k < |ops|
    ensures PlainInPlace(buf, ops + [op], k) <==> PlainInPlace(buf, ops, k)
  {
    StartPrefix(ops, [op], k);
  }

  lemma LastPlain(buf: seq<Byte>, ops: seq<Op>, data: seq<Byte>)
    requires Stands(buf, Start(ops, |ops|), data)
    ensures PlainInPlace(buf, ops + [Plain(data)], |ops|)
  {
    StartPrefix(ops, [Plain(data)], |ops|);
  }

  lemma OneMoreOp(ops: seq<Op>, op: Op)
    ensures Start(ops + [op], |ops| + 1) == Start(ops, |ops|) + op.Size()
    ensures Notes(ops + [op], |ops| + 1)
         == Notes(ops, |ops|) + if op.Tensor? then [Note(op, Start(ops, |ops|))] else []
  {
    StartPrefix(ops, [op], |ops|);
    assert (ops + [op])[|ops|] == op;
  }

  ghost predicate AllPlainInPlace(buf: seq<Byte>, ops: seq<Op>) {
    forall k: nat {:trigger PlainInPlace(buf, ops, k)} ::
      k < |ops| && ops[k].Plain? ==> PlainInPlace(buf, ops, k)
  }

  lemma MoreOps(was: seq<Byte>, now: seq<Byte>, ops: seq<Op>, op: Op)
    requires Start(ops, |ops|) + op.Size() <= |was| && AllPlainInPlace(was, ops)
    requires now == if op.Plain? then Splice(was, Start(ops, |ops|), op.data) else was
    ensures AllPlainInPlace(now, ops + [op])
  {
    forall k: nat | k < |ops| + 1 && (ops + [op])[k].Plain?
      ensures PlainInPlace(now, ops + [op], k)
    {
      if k == |ops| {
        SplicedStands(was, Start(ops, |ops|), op.data);
        LastPlain(now, ops, op.data);
      } else {
        if op.Plain? { PlainStays(was, ops, op.data, k); }
        PlainOfMore(now, ops, op, k);
      }
    }
  }

  lemma AllFetched(buf: seq<Byte>, ops: seq<Op>, mem: Memory, k: nat)
    requires AllInMemory(ops, mem) && k <= |ops| && |Notes(ops, k)| == |Notes(ops, |ops|)|
    requires Fetched(buf, ops, mem, k)
    ensures Stream(ops, mem) <= buf
  {
    NotesDone(ops, k);
    PlacesMakeStream(buf, ops, mem);
  }

  // ---- reading ----

  /** One noted stretch put back into its tensor. */
  function Flushed(mem: Memory, note: Note, src: seq<Byte>): (r: Memory)
    requires note.op.Tensor? && InMemory(note.op, mem) && note.at + note.op.size <= |src|
    ensures |r| == |mem| && forall t :: 0 <= t < |mem| ==> |r[t]| == |mem[t]|
  {
    var op := note.op;
    mem[op.t := Splice(mem[op.t], op.offset, src[note.at..note.at + op.size])]
  }

  /** The tensors after the noted stretches of the first n calls have been put back. */
  function AfterReading(mem: Memory, ops: seq<Op>, src: seq<Byte>, n: nat): (r: Memory)
    requires n <= |ops| && AllInMemory(ops, mem) && Start(ops, n) <= |src|
    ensures |r| == |mem| && forall t :: 0 <= t < |mem| ==> |r[t]| == |mem[t]|
  {
    if n == 0 then mem
    else
      var r := AfterReading(mem, ops, src, n - 1);
      assert InMemory(ops[n - 1], mem);
      if ops[n - 1].Tensor? then Flushed(r, Note(ops[n - 1], Start(ops, n - 1)), src) else r
  }

  /** `llama_io_read_host` */
  class HostReader {
    const src: seq<Byte>
    var at: nat
    var notes: seq<Note>
    /** The calls that went through, with what the plain ones returned. */
    ghost var ops: seq<Op>

    ghost predicate Valid()
      reads this
    {
      at == Start(ops, |ops|) <= |src| && notes == Notes(ops, |ops|) && AllPlainInPlace(src, ops)
    }

    constructor (src: seq<Byte>)
      ensures Valid() && this.src == src && ops == []
    {
      this.src := src;
      at, notes, ops := 0, [], [];
    }

    /** None stands for the exception at the end of the buffer. */
    method Read(size: nat) returns (r: Option<seq<Byte>>)
      requires Valid()
      modifies this
      ensures Valid() && (r.Some? <==> old(at) + size <= |src|)
      ensures r.Some? ==> r.value == src[old(at)..old(at) + size] && ops == old(ops) + [Plain(r.value)]
      ensures r == None ==> ops == old(ops)
    {
      if size > |src| - at {
        return None;
      }
      var data := src[at..at + size];
      assert Splice(src, at, data) == src;
      MoreOps(src, src, ops, Plain(data));
      OneMoreOp(ops, Plain(data));
      ops := ops + [Plain(data)];
      at := at + size;
      return Some(data);
    }

    method ReadTensor(t: nat, offset: nat, size: nat) returns (ok: bool)
      requires Valid()
      modifies this
      ensures Valid() && ok == (old(at) + size <= |src|)
      ensures ops == if ok then old(ops) + [Tensor(t, offset, size)] else old(ops)
    {
      if size > |src| - at {
        return false;
      }
      MoreOps(src, src, ops, Tensor(t, offset, size));
      OneMoreOp(ops, Tensor(t, offset, size));
      ops := ops + [Tensor(t, offset, size)];
      notes := notes + [Note(Tensor(t, offset, size), at)];
      at := at + size;
      return true;
    }

    /** The destructor: the noted stretches reach their tensors now, whether or not a later call hit
        the end of the buffer. */
    method Finish(mem: Memory) returns (out: Memory)
      requires Valid() && AllInMemory(ops, mem)
      ensures out == AfterReading(mem, ops, src, |ops|)
    {
      ghost var k: nat := 0;
      out := mem;
      for i := 0 to |notes|
        invariant k <= |ops| && Start(ops, k) <= |src| && i == |Notes(ops, k)|
        invariant out == AfterReading(mem, ops, src, k)
      {
        k := NextFlush(mem, ops, src, k, i);
        out := Flushed(out, notes[i], src);
      }
      NotesDone(ops, k);
      NothingBetween(mem, ops, src, k, |ops|);
    }
  }

  lemma FlushStep(mem: Memory, ops: seq<Op>, src: seq<Byte>, j: nat)
    requires j < |ops| && AllInMemory(ops, mem) && Start(ops, j + 1) <= |src| && ops[j].Tensor?
    ensures Start(ops, j + 1) == Start(ops, j) + ops[j].size && InMemory(ops[j], AfterReading(mem, ops, src, j))
    ensures AfterReading(mem, ops, src, j + 1)
         == Flushed(AfterReading(mem, ops, src, j), Note(ops[j], Start(ops, j)), src)
  {
    assert InMemory(ops[j], mem);
  }

  /** Putting note i back takes the reading on to just behind its call. */
  lemma NextFlush(mem: Memory, ops: seq<Op>, src: seq<Byte>, k: nat, i: nat) returns (next: nat)
    requires k <= |ops| && AllInMemory(ops, mem) && Start(ops, |ops|) <= |src|
    requires Start(ops, k) <= |src| && |Notes(ops, k)| == i < |Notes(ops, |ops|)|
    ensures next <= |ops| && Start(ops, next) <= |src| && |Notes(ops, next)| == i + 1
    ensures var note, r := Notes(ops, |ops|)[i], AfterReading(mem, ops, src, k);
            note.op.Tensor? && InMemory(note.op, r) && note.at + note.op.size <= |src|
            && AfterReading(mem, ops, src, next) == Flushed(r, note, src)
  {
    var j := NextNote(ops, |ops|, k, i);
    StartsGrow(ops, j, |ops|);
    StartsGrow(ops, j + 1, |ops|);
    NothingBetween(mem, ops, src, k, j);
    FlushStep(mem, ops, src, j);
    next := j + 1;
  }

  /** Plain calls put nothing into tensors. */
  lemma {:induction false} NothingBetween(mem: Memory, ops: seq<Op>, src: seq<Byte>, k: nat, j: nat)
    requires k <= j <= |ops| && AllInMemory(ops, mem) && Start(ops, k) <= |src| && Start(ops, j) <= |src|
    requires forall l :: k <= l < j ==> ops[l].Plain?
    ensures AfterReading(mem, ops, src, k) == AfterReading(mem, ops, src, j)
    decreases j
  {
    if k < j {
      NothingBetween(mem, ops, src, k, j - 1);
    }
  }

  // ---- there and back ----

  /** Some tensor call among the first n covers place p of tensor t. */
  predicate Covered(ops: seq<Op>, n: nat, t: nat, p: nat)
    requires n <= |ops|
  {
    exists k: nat :: k < n && Covers(ops[k], t, p)
  }

  predicate Covers(op: Op, t: nat, p: nat) {
    op.Tensor? && op.t == t && op.offset <= p < op.offset + op.size
  }

  /** The bytes of call k, found again in the stream. */
  lemma StreamAt(ops: seq<Op>, mem: Memory, k: nat)
    requires k < |ops| && AllInMemory(ops, mem)
    ensures InMemory(ops[k], mem) && InPlace(Stream(ops, mem), ops, mem, k)
  {
    var ps := Pieces(ops, mem);
    OffsetIsStart(ops, ps, k);
    ConcatAt(ps, |ps|, k);
  }

  /** Two memories of the same tensors. */
  ghost predicate SameShape(mem: Memory, other: Memory) {
    |mem| == |other| && forall t :: 0 <= t < |mem| ==> |mem[t]| == |other[t]|
  }

  lemma FlushedAt(r: Memory, mem: Memory, note: Note, src: seq<Byte>, t: nat, p: nat)
    requires note.op.Tensor? && InMemory(note.op, mem) && SameShape(mem, r) && InMemory(note.op, r)
    requires Stands(src, note.at, Piece(note.op, mem))
    requires t < |mem| && p < |mem[t]|
    ensures Flushed(r, note, src)[t][p] == if Covers(note.op, t, p) then mem[t][p] else r[t][p]
  {
    if note.op.t == t {
      SpliceAt(r[t], note.op.offset, Piece(note.op, mem), p);
    }
  }

  lemma ReadOne(other: Memory, mem: Memory, ops: seq<Op>, src: seq<Byte>, n: nat, t: nat, p: nat)
    requires 0 < n <= |ops| && AllInMemory(ops, mem) && AllInMemory(ops, other) && SameShape(mem, other)
    requires t < |mem| && p < |mem[t]| && Start(ops, n) <= |src|
    requires InMemory(ops[n - 1], mem) && InPlace(src, ops, mem, n - 1)
    ensures AfterReading(other, ops, src, n)[t][p]
         == if Covers(ops[n - 1], t, p) then mem[t][p] else AfterReading(other, ops, src, n - 1)[t][p]
  {
    var r := AfterReading(other, ops, src, n - 1);
    if ops[n - 1].Tensor? {
      assert InMemory(ops[n - 1], other);
      FlushedAt(r, mem, Note(ops[n - 1], Start(ops, n - 1)), src, t, p);
    }
  }

  lemma {:induction false} ReadingFrom(src: seq<Byte>, ops: seq<Op>, mem: Memory, other: Memory, n: nat, t: nat, p: nat)
    requires n <= |ops| && AllInMemory(ops, mem) && AllInMemory(ops, other) && SameShape(mem, other)
    requires t < |mem| && p < |mem[t]| && Start(ops, n) <= |src| && AllInPlace(src, ops, mem)
    ensures AfterReading(other, ops, src, n)[t][p] == if Covered(ops, n, t, p) then mem[t][p] else other[t][p]
  {
    if n > 0 {
      ReadingFrom(src, ops, mem, other, n - 1, t, p);
      CoveredStep(ops, n - 1, t, p);
      assert InPlace(src, ops, mem, n - 1);
      ReadOne(other, mem, ops, src, n, t, p);
    }
  }

  /** Reading back what was written restores every written place of every tensor, and no other;
      overlapping stretches do no harm. */
  lemma ReadingRestores(ops: seq<Op>, mem: Memory, other: Memory, n: nat, t: nat, p: nat)
    requires n <= |ops| && AllInMemory(ops, mem) && AllInMemory(ops, other) && SameShape(mem, other)
    requires t < |mem| && p < |mem[t]|
    ensures Start(ops, n) <= |Stream(ops, mem)|
    ensures AfterReading(other, ops, Stream(ops, mem), n)[t][p]
         == if Covered(ops, n, t, p) then mem[t][p] else other[t][p]
  {
    StartsGrow(ops, n, |ops|);
    forall k: nat {:trigger InPlace(Stream(ops, mem), ops, mem, k)} | k < |ops|
      ensures InPlace(Stream(ops, mem), ops, mem, k)
    {
      StreamAt(ops, mem, k);
    }
    ReadingFrom(Stream(ops, mem), ops, mem, other, n, t, p);
  }

  lemma CoveredStep(ops: seq<Op>, n: nat, t: nat, p: nat)
    requires n < |ops|
    ensures Covered(ops, n + 1, t, p) <==> Covered(ops, n, t, p) || Covers(ops[n], t, p)
  {
  }

  /** read asks for the same sizes as op wrote. */
  predicate Asks(read: Op, op: Op) {
    if op.Plain? then read.Plain? && |read.data| == |op.data| else read == op
  }

  ghost predicate AllAsk(read: seq<Op>, ops: seq<Op>) {
    |read| <= |ops| && forall k {:trigger Asks(read[k], ops[k])} :: 0 <= k < |read| ==> Asks(read[k], ops[k])
  }

  lemma {:induction false} SameStarts(ops: seq<Op>, read: seq<Op>, n: nat)
    requires n <= |read| && AllAsk(read, ops)
    ensures Start(read, n) == Start(ops, n)
  {
    if n > 0 {
      SameStarts(ops, read, n - 1);
      assert Asks(read[n - 1], ops[n - 1]);
    }
  }

  lemma SameBytes(src: seq<Byte>, a: nat, x: seq<Byte>, y: seq<Byte>)
    requires Stands(src, a, x) && Stands(src, a, y) && |x| == |y|
    ensures x == y
  {
  }

  /** The plain parts come back as they were written: a reader that asks for the same sizes makes the
      same calls. */
  lemma SameSizesSameCalls(ops: seq<Op>, mem: Memory, read: seq<Op>, k: nat)
    requires AllInMemory(ops, mem) && AllPlainInPlace(Stream(ops, mem), read)
    requires AllAsk(read, ops) && k < |read|
    ensures read[k] == ops[k]
  {
    StreamAt(ops, mem, k);
    SameStarts(ops, read, k);
    assert Asks(read[k], ops[k]);
    if read[k].Plain? {
      assert PlainInPlace(Stream(ops, mem), read, k);
      SameBytes(Stream(ops, mem), Start(ops, k), read[k].data, ops[k].data);
    }
  }
}
