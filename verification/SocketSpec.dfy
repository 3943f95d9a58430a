/**
 What AsyncSocket's write path does to one open socket, on values: bytes the
 kernel has taken, backpressure, and cork buffer. The kernel's partial writes are
 a script: each write call takes at most the next number of bytes. Statements are
 about every script, so about every behaviour of the kernel.
 */
module SocketSpec {

  import opened Common

  const CORK_BUFFER_SIZE: nat := 16 * 1024

  /** Who has the loop's cork buffer. Another socket may have put bytes in it. */
  datatype Owner = Free | Mine | Other(offset: nat)

  datatype Sock = Sock(kernel: seq<Byte>, script: seq<nat>, back: seq<Byte>, owner: Owner, cork: seq<Byte>)

  /** Bytes reported as written, and whether the caller must wait for writability. */
  datatype Reply = Reply(sock: Sock, written: nat, failed: bool)

  datatype Attribute = NeedsNothing | NeedsDrain | NeedsUncork

  ghost predicate Ok(s: Sock) {
    && |s.cork| <= CORK_BUFFER_SIZE
    && (s.owner != Mine ==> s.cork == [])
    && (s.cork != [] ==> s.back == [])
  }

  /** Everything accepted so far, in order, wherever it is. */
  ghost function Stream(s: Sock): seq<Byte> {
    s.kernel + s.back + s.cork
  }

  function Takes(script: seq<nat>, n: nat): (r: nat)
    ensures r <= n
  {
    if script == [] then 0 else if script[0] < n then script[0] else n
  }

  /** us_socket_write: the kernel takes a prefix. */
  function KernelWrite(s: Sock, data: seq<Byte>): Sock {
    s.(kernel := s.kernel + data[..Takes(s.script, |data|)],
       script := if s.script == [] then [] else s.script[1..])
  }

  /** `write` once the backpressure is empty. */
  function Send(s: Sock, src: seq<Byte>, optionally: bool): Reply
    decreases s.owner.Mine?, 1
  {
    if src == [] then Reply(s, 0, false)
    else if s.owner.Mine? then
      if CORK_BUFFER_SIZE - |s.cork| >= |src| then Reply(s.(cork := s.cork + src), |src|, false)
      else Uncork(s, src, optionally)
    else
      var n, s1 := Takes(s.script, |src|), KernelWrite(s, src);
      if n == |src| then Reply(s1, |src|, false)
      else if optionally then Reply(s1, n, true)
      else Reply(s1.(back := s1.back + src[n..]), |src|, true)
  }

  function Write(s: Sock, src: seq<Byte>, optionally: bool): Reply
    decreases s.owner.Mine?, 2
  {
    if s.back == [] then Send(s, src, optionally)
    else
      var n, s1 := Takes(s.script, |s.back|), KernelWrite(s, s.back);
      if n == |s.back| then Send(s1.(back := []), src, optionally)
      else if optionally then Reply(s1.(back := s.back[n..]), 0, true)
      else Reply(s1.(back := s.back[n..] + src), |src|, true)
  }

  function Uncork(s: Sock, src: seq<Byte>, optionally: bool): Reply
    decreases s.owner.Mine?, 0
  {
    if !s.owner.Mine? then Reply(s, 0, false)
    else
      var s1 := s.(owner := Free, cork := []);
      if s.cork == [] then Write(s1, src, optionally)
      else
        var r := Write(s1, s.cork, false);
        if r.failed then Reply(r.sock, 0, true)
        else if r.sock.owner.Mine? then r  // cannot happen: writing does not cork
        else Write(r.sock, src, optionally)
  }

  /** `getSendBuffer`, with `content` the bytes the caller then puts into the region. */
  function GetSendBuffer(s: Sock, content: seq<Byte>): (Sock, Attribute) {
    if s.back == [] && !s.owner.Other? && |s.cork| + |content| < CORK_BUFFER_SIZE then
      (s.(owner := Mine, cork := s.cork + content), if s.owner.Mine? then NeedsNothing else NeedsUncork)
    else
      (s.(back := s.back + s.cork + content, cork := []), NeedsDrain)
  }

  /** `cork`; corking over another socket's bytes terminates the program. */
  function Cork(s: Sock): Sock {
    s.(owner := Mine)
  }

  predicate CorkTerminates(s: Sock) {
    s.owner.Other? && s.owner.offset > 0
  }

  // --------------------------------------------------------------- one call

  /** The kernel takes a prefix of what is offered, and nothing else moves. */
  lemma KernelTakesPrefix(s: Sock, data: seq<Byte>)
    ensures var n, s1 := Takes(s.script, |data|), KernelWrite(s, data);
      s1.kernel + data[n..] == s.kernel + data && s1.back == s.back && s1.cork == s.cork && s1.owner == s.owner
  {
    assert data == data[..Takes(s.script, |data|)] + data[Takes(s.script, |data|)..];
  }

  /**
   What every reply guarantees: the stream grew by exactly the reported prefix of
   the source, and the caller is told to wait exactly when something was left out
   or backpressure is left; for a non-optional call backpressure alone decides.
   */
  ghost predicate Ledger(s: Sock, src: seq<Byte>, optionally: bool, r: Reply) {
    && r.written <= |src|
    && Ok(r.sock)
    && Stream(r.sock) == Stream(s) + src[..r.written]
    && (!optionally ==> (r.failed <==> r.sock.back != []))
    && (r.failed <==> r.written < |src| || r.sock.back != [])
  }

  /** Writing past the cork: not corked, empty backpressure. */
  lemma SendDirect(s: Sock, src: seq<Byte>, optionally: bool)
    requires Ok(s) && s.back == [] && !s.owner.Mine?
    ensures Ledger(s, src, optionally, Send(s, src, optionally))
    ensures Send(s, src, optionally).sock.owner == s.owner
    ensures !optionally ==> Send(s, src, optionally).written == |src|
  {
    KernelTakesPrefix(s, src);
    var r := Send(s, src, optionally);
    var n := Takes(s.script, |src|);
    assert src[..|src|] == src && src[..0] == [];
    if src != [] && n < |src| && !optionally {
      assert Stream(r.sock) == KernelWrite(s, src).kernel + src[n..];
    }
  }

  /** Draining backpressure first keeps the order. */
  lemma WriteDirect(s: Sock, src: seq<Byte>, optionally: bool)
    requires Ok(s) && !s.owner.Mine?
    ensures Ledger(s, src, optionally, Write(s, src, optionally))
    ensures Write(s, src, optionally).sock.owner == s.owner
    ensures !optionally ==> Write(s, src, optionally).written == |src|
  {
    if Takes(s.script, |s.back|) == |s.back| {
      WriteDrains(s, src, optionally);
      SendDirect(Drained(s), src, optionally);
    } else {
      WriteQueues(s, src, optionally);
    }
  }

  /** Backpressure not fully flushed: the source queues behind what is left of it, or is refused. */
  lemma WriteQueues(s: Sock, src: seq<Byte>, optionally: bool)
    requires Ok(s) && Takes(s.script, |s.back|) < |s.back|
    ensures Ledger(s, src, optionally, Write(s, src, optionally))
    ensures Write(s, src, optionally).sock.owner == s.owner
    ensures !optionally ==> Write(s, src, optionally).written == |src|
  {
    var n, s1, r := Takes(s.script, |s.back|), KernelWrite(s, s.back), Write(s, src, optionally);
    KernelTakesPrefix(s, s.back);
    assert s.cork == [] && src[..|src|] == src && src[..0] == [];
    if optionally {
      assert Stream(r.sock) == s1.kernel + s.back[n..];
    } else {
      assert Stream(r.sock) == (s1.kernel + s.back[n..]) + src;
    }
  }

  /** The socket once its backpressure has gone to the kernel. */
  function Drained(s: Sock): Sock {
    if s.back == [] then s else KernelWrite(s, s.back).(back := [])
  }

  /** The socket after a partial flush of its backpressure. */
  function PartlyDrained(s: Sock): Sock {
    KernelWrite(s, s.back).(back := s.back[Takes(s.script, |s.back|)..])
  }

  /** Backpressure fully flushed: no byte moved out of order, and the call goes on as if there had been none. */
  lemma WriteDrains(s: Sock, src: seq<Byte>, optionally: bool)
    requires Ok(s) && Takes(s.script, |s.back|) == |s.back|
    ensures Ok(Drained(s)) && Drained(s).back == [] && Stream(Drained(s)) == Stream(s)
    ensures Drained(s).owner == s.owner && Drained(s).cork == s.cork
    ensures Write(s, src, optionally) == Send(Drained(s), src, optionally)
  {
    KernelTakesPrefix(s, s.back);
  }

  /** Uncorking flushes the cork buffer before anything new. */
  lemma UncorkLedger(s: Sock, src: seq<Byte>, optionally: bool)
    requires Ok(s) && s.owner.Mine?
    ensures Ledger(s, src, optionally, Uncork(s, src, optionally)) && !Uncork(s, src, optionally).sock.owner.Mine?
  {
    var s1 := s.(owner := Free, cork := []);
    if s.cork == [] {
      WriteDirect(s1, src, optionally);
    } else {
      WriteDirect(s1, s.cork, false);
      var r := Write(s1, s.cork, false);
      assert Stream(s1) + s.cork == Stream(s) && s.cork[..|s.cork|] == s.cork;
      if r.failed {
        assert src[..0] == [];
      } else {
        WriteDirect(r.sock, src, optionally);
      }
    }
  }

  lemma SendLedger(s: Sock, src: seq<Byte>, optionally: bool)
    requires Ok(s) && s.back == []
    ensures Ledger(s, src, optionally, Send(s, src, optionally))
  {
    assert src[..|src|] == src && src[..0] == [];
    if !s.owner.Mine? {
      SendDirect(s, src, optionally);
    } else if src != [] && CORK_BUFFER_SIZE - |s.cork| < |src| {
      UncorkLedger(s, src, optionally);
    } else if src != [] {
      assert Stream(Send(s, src, optionally).sock) == Stream(s) + src;
    }
  }

  /**
   `write`: whatever the kernel does, kernel bytes, backpressure and cork buffer
   together grow by exactly the prefix of the source that the call reports; a
   non-optional write reports failure exactly when backpressure is left.
   */
  lemma WriteLedger(s: Sock, src: seq<Byte>, optionally: bool)
    requires Ok(s)
    ensures Ledger(s, src, optionally, Write(s, src, optionally))
  {
    if Takes(s.script, |s.back|) == |s.back| {
      WriteDrains(s, src, optionally);
      SendLedger(Drained(s), src, optionally);
    } else {
      WriteQueues(s, src, optionally);
    }
  }

  /**
   A reserved region extends the stream by its content. The caller must wait for a
   drain exactly when the region went behind the backpressure, which happens only
   when there is backpressure, another socket has the cork buffer, or there is no
   room in it; and must uncork exactly when the call corked the socket.
   */
  lemma SendBufferLedger(s: Sock, content: seq<Byte>)
    requires Ok(s)
    ensures var (s', a) := GetSendBuffer(s, content);
      && Ok(s') && Stream(s') == Stream(s) + content && s'.kernel == s.kernel && s'.script == s.script
      && (a == NeedsDrain <==> s'.owner == s.owner && s'.cork == [] && s'.back == s.back + s.cork + content
                               && !(s.back == [] && !s.owner.Other? && |s.cork| + |content| < CORK_BUFFER_SIZE))
      && (a != NeedsDrain ==> s'.owner.Mine? && s'.back == [] && s'.cork == s.cork + content)
      && (a == NeedsUncork <==> !s.owner.Mine? && s'.owner.Mine?)
  {
    var (s', a) := GetSendBuffer(s, content);
    if a == NeedsDrain {
      assert Stream(s') == s.kernel + (s.back + s.cork + content);
    } else {
      assert Stream(s') == s.kernel + s.back + (s.cork + content);
    }
  }

  // ------------------------------------ when a mandatory write takes everything

  /** The write would overflow a cork buffer that already holds bytes. */
  predicate OverflowsCork(s: Sock, src: seq<Byte>) {
    s.owner.Mine? && s.cork != [] && CORK_BUFFER_SIZE - |s.cork| < |src|
  }

  /**
   A non-optional write is meant to accept its whole source. It does, whatever
   the kernel takes, exactly when it does not overflow a non-empty cork buffer.
   */
  lemma MandatoryWriteTakesAll(s: Sock, src: seq<Byte>)
    requires Ok(s)
    ensures (forall script :: Write(s.(script := script), src, false).written == |src|) <==> !OverflowsCork(s, src)
  {
    if OverflowsCork(s, src) {
      OverflowLosesSource(s, src);
      assert Write(s.(script := []), src, false).written != |src|;
    } else {
      forall script ensures Write(s.(script := script), src, false).written == |src| {
        NoOverflowTakesAll(s.(script := script), src);
      }
    }
  }

  lemma NoOverflowTakesAll(s: Sock, src: seq<Byte>)
    requires Ok(s) && !OverflowsCork(s, src)
    ensures Write(s, src, false).written == |src|
  {
    if Takes(s.script, |s.back|) < |s.back| {
      WriteQueues(s, src, false);
    } else {
      WriteDrains(s, src, false);
      SendTakesAll(Drained(s), src);
    }
  }

  lemma SendTakesAll(s: Sock, src: seq<Byte>)
    requires Ok(s) && s.back == [] && !OverflowsCork(s, src)
    ensures Send(s, src, false).written == |src|
  {
    if !s.owner.Mine? {
      SendDirect(s, src, false);
    } else if src != [] && CORK_BUFFER_SIZE - |s.cork| < |src| {
      WriteDirect(s.(owner := Free, cork := []), src, false);
      assert Uncork(s, src, false) == Write(s.(owner := Free, cork := []), src, false);
    }
  }

  /** A kernel that takes nothing makes `uncork` report 0: the source is neither sent nor buffered. */
  lemma OverflowLosesSource(s: Sock, src: seq<Byte>)
    requires Ok(s) && OverflowsCork(s, src)
    ensures Write(s.(script := []), src, false).written == 0 && src != []
    ensures Write(s.(script := []), src, false).sock.back == s.cork
  {
    var s0, s1 := s.(script := []), s.(script := [], owner := Free, cork := []);
    assert s.cork[0..] == s.cork;
    assert Write(s1, s.cork, false) == Send(s1, s.cork, false) == Reply(s1.(back := s.cork), |s.cork|, true) by {
      assert s1.kernel + s.cork[..0] == s1.kernel;
    }
    assert Uncork(s0, src, false) == Reply(s1.(back := s.cork), 0, true);
    assert Write(s0, src, false) == Send(s0, src, false) == Uncork(s0, src, false);
  }

  /**
   An overflowing non-optional write is accepted in full exactly when the kernel
   takes the whole cork buffer at its next call.
   */
  lemma OverflowTakesAll(s: Sock, src: seq<Byte>)
    requires Ok(s) && OverflowsCork(s, src)
    ensures Write(s, src, false).written == |src| <==> Takes(s.script, |s.cork|) == |s.cork|
    ensures Write(s, src, false).written == |src| || Write(s, src, false).written == 0
  {
    var s1 := s.(owner := Free, cork := []);
    var r := Write(s1, s.cork, false);
    assert Write(s, src, false) == Uncork(s, src, false);
    WriteDirect(s1, s.cork, false);
    assert r == Send(s1, s.cork, false);
    assert r.failed <==> Takes(s.script, |s.cork|) < |s.cork|;
    if !r.failed { WriteDirect(r.sock, src, false); }
  }

  /** The exact condition on the socket and the script for a non-optional write to be accepted in full. */
  lemma MandatoryWriteAccepted(s: Sock, src: seq<Byte>)
    requires Ok(s)
    ensures Write(s, src, false).written == |src| <==> !OverflowsCork(s, src) || Takes(s.script, |s.cork|) == |s.cork|
  {
    if OverflowsCork(s, src) { OverflowTakesAll(s, src); } else { NoOverflowTakesAll(s, src); }
  }

  // ------------------------------------------------ what reaches the kernel

  function Later(script: seq<nat>): seq<nat> {
    if script == [] then [] else script[1..]
  }

  /** How many bytes of backpressure and source the kernel takes from an uncorked socket: the source is offered only behind all of the backpressure. */
  function Reaches(script: seq<nat>, back: nat, src: nat): nat {
    if back == 0 then Takes(script, src)
    else if Takes(script, back) < back then Takes(script, back)
    else back + if src == 0 then 0 else Takes(Later(script), src)
  }

  /** An uncorked write gives the kernel as much as it takes, optional or not. */
  lemma WriteOffersAll(s: Sock, src: seq<Byte>, optionally: bool)
    requires Ok(s) && !s.owner.Mine?
    ensures Write(s, src, optionally).sock.kernel == s.kernel + (s.back + src)[..Reaches(s.script, |s.back|, |src|)]
  {
    var n := Takes(s.script, |s.back|);
    if s.back == [] {
      assert s.back + src == src;
    } else if n < |s.back| {
      assert (s.back + src)[..n] == s.back[..n];
    } else {
      WriteDrains(s, src, optionally);
      var m := Takes(Later(s.script), |src|);
      assert Drained(s).kernel == s.kernel + s.back by { assert s.back[..n] == s.back; }
      assert (s.back + src)[..|s.back| + m] == s.back + src[..m];
      assert Drained(s).kernel + src[..m] == s.kernel + (s.back + src[..m]);
    }
  }

  /** A write that fits into the cork buffer makes no system call. */
  lemma CorkedWriteStays(s: Sock, src: seq<Byte>, optionally: bool)
    requires Ok(s) && s.owner.Mine? && s.back == [] && |s.cork| + |src| <= CORK_BUFFER_SIZE
    ensures Write(s, src, optionally) == Reply(s.(cork := s.cork + src), |src|, false)
  {
    assert src == [] ==> s.cork + src == s.cork;
  }

  /** The kernel takes n bytes at each of the next k calls. */
  ghost predicate Generous(script: seq<nat>, k: nat, n: nat) {
    k <= |script| && forall i :: 0 <= i < k ==> script[i] >= n
  }

  lemma SendGenerous(s: Sock, src: seq<Byte>, optionally: bool)
    requires Ok(s) && s.back == [] && Generous(s.script, 2, |s.cork| + |src|)
    ensures var r := Send(s, src, optionally); !r.failed && r.written == |src| && r.sock.back == []
  {
    if s.owner.Mine? && CORK_BUFFER_SIZE - |s.cork| < |src| {
      UncorkGenerous(s, src, optionally);
      assert Send(s, src, optionally) == Uncork(s, src, optionally);
    }
  }

  lemma UncorkGenerous(s: Sock, src: seq<Byte>, optionally: bool)
    requires Ok(s) && s.owner.Mine? && s.back == [] && Generous(s.script, 2, |s.cork| + |src|)
    ensures var r := Uncork(s, src, optionally); !r.failed && r.written == |src| && r.sock.back == []
  {
    var s1 := s.(owner := Free, cork := []);
    if s.cork == [] {
      assert Uncork(s, src, optionally) == Write(s1, src, optionally) == Send(s1, src, optionally);
    } else {
      var r := Write(s1, s.cork, false);
      assert r == Send(s1, s.cork, false) && !r.failed && r.sock.script == s.script[1..];
      assert Uncork(s, src, optionally) == Write(r.sock, src, optionally) == Send(r.sock, src, optionally);
    }
  }

  /** When the kernel takes what it is offered, every write is accepted and nothing waits but corked bytes. */
  lemma GenerousKernel(s: Sock, src: seq<Byte>, optionally: bool)
    requires Ok(s) && Generous(s.script, 3, |s.back| + |s.cork| + |src|)
    ensures var r := Write(s, src, optionally); !r.failed && r.written == |src| && r.sock.back == []
  {
    WriteDrains(s, src, optionally);
    SendGenerous(Drained(s), src, optionally);
  }

  /** Then `uncork` leaves nothing behind: everything accepted and the source are with the kernel. */
  lemma GenerousUncork(s: Sock, src: seq<Byte>, optionally: bool)
    requires Ok(s) && s.owner.Mine? && Generous(s.script, 3, |s.back| + |s.cork| + |src|)
    ensures var r := Uncork(s, src, optionally);
      !r.failed && r.written == |src| && r.sock.kernel == Stream(s) + src && r.sock.back == r.sock.cork == []
  {
    var s1 := s.(owner := Free, cork := []);
    UncorkLedger(s, src, optionally);
    if s.cork == [] {
      GenerousKernel(s1, src, optionally);
    } else {
      var r := Write(s1, s.cork, false);
      assert r == Send(s1, s.cork, false) && !r.failed && r.sock.script == s.script[1..];
      SendGenerous(r.sock, src, optionally);
    }
    assert src[..|src|] == src;
  }

  // --------------------------------------------------------------- every run

  /** One call, or what other sockets on the loop may do in between. */
  datatype Op =
    | OpWrite(src: seq<Byte>, optionally: bool)
    | OpUncork(src: seq<Byte>, optionally: bool)
    | OpSendBuffer(content: seq<Byte>)
    | OpCork
    | OthersCork(offset: nat)
    | OthersUncork

  /** Others may take the cork buffer only while it holds none of our bytes. */
  ghost predicate Allowed(s: Sock, op: Op) {
    match op
    case OpCork => !CorkTerminates(s)
    case OthersCork(_) => s.cork == []
    case OthersUncork => s.owner.Other?
    case _ => true
  }

  ghost function Do(s: Sock, op: Op): Sock {
    match op
    case OpWrite(src, o) => Write(s, src, o).sock
    case OpUncork(src, o) => Uncork(s, src, o).sock
    case OpSendBuffer(c) => GetSendBuffer(s, c).0
    case OpCork => Cork(s)
    case OthersCork(n) => s.(owner := Other(n))
    case OthersUncork => s.(owner := Free)
  }

  /** The bytes a call reported as accepted. */
  ghost function Accepted(s: Sock, op: Op): seq<Byte> {
    match op
    case OpWrite(src, o) => var n := Write(s, src, o).written; if n <= |src| then src[..n] else src
    case OpUncork(src, o) => var n := Uncork(s, src, o).written; if n <= |src| then src[..n] else src
    case OpSendBuffer(c) => c
    case _ => []
  }

  ghost predicate AllAllowed(s: Sock, ops: seq<Op>)
    decreases |ops|
  {
    ops == [] || (Allowed(s, ops[0]) && AllAllowed(Do(s, ops[0]), ops[1..]))
  }

  ghost function Run(s: Sock, ops: seq<Op>): Sock
    decreases |ops|
  {
    if ops == [] then s else Run(Do(s, ops[0]), ops[1..])
  }

  ghost function AllAccepted(s: Sock, ops: seq<Op>): seq<Byte>
    decreases |ops|
  {
    if ops == [] then [] else Accepted(s, ops[0]) + AllAccepted(Do(s, ops[0]), ops[1..])
  }

  lemma StepLedger(s: Sock, op: Op)
    requires Ok(s) && Allowed(s, op)
    ensures Ok(Do(s, op)) && Stream(Do(s, op)) == Stream(s) + Accepted(s, op)
  {
    match op
    case OpWrite(src, o) => WriteLedger(s, src, o);
    case OpUncork(src, o) => if s.owner.Mine? { UncorkLedger(s, src, o); } else { assert src[..0] == []; }
    case OpSendBuffer(c) => SendBufferLedger(s, c);
    case OpCork =>
    case OthersCork(_) =>
    case OthersUncork =>
  }

  /**
   Byte stream preservation: over any sequence of calls and any kernel behaviour,
   the bytes sent, buffered and corked are, in order, those reported as accepted.
   */
  lemma {:induction false} StreamPreserved(s: Sock, ops: seq<Op>)
    requires Ok(s) && AllAllowed(s, ops)
    ensures Ok(Run(s, ops)) && Stream(Run(s, ops)) == Stream(s) + AllAccepted(s, ops)
    decreases |ops|
  {
    if ops != [] {
      StepLedger(s, ops[0]);
      StreamPreserved(Do(s, ops[0]), ops[1..]);
      assert Stream(s) + AllAccepted(s, ops)
        == (Stream(s) + Accepted(s, ops[0])) + AllAccepted(Do(s, ops[0]), ops[1..]);
    }
  }
}
