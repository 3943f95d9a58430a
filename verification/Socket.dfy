/**
 AsyncSocket, its backpressure buffer and the loop's shared cork buffer, updated in
 place. Every method is proved equal to its function in `SocketSpec`, where the byte
 stream is accounted for.
 */
module Socket {
  import opened Common
  import opened SocketSpec

  /** A byte queue that forgets consumed bytes lazily. */
  class BackPressure {
    var buffer: seq<Byte>
    var pendingRemoval: nat

    ghost predicate Valid()
      reads this
    {
      pendingRemoval <= |buffer|
    }

    /** At most a 32nd of the buffer is dead. */
    ghost predicate Tight()
      reads this
    {
      32 * pendingRemoval <= |buffer|
    }

    ghost function Live(): seq<Byte>
      requires Valid()
      reads this
    {
      buffer[pendingRemoval..]
    }

    constructor ()
      ensures Valid() && Tight() && Live() == []
    {
      buffer, pendingRemoval := [], 0;
    }

    method Append(data: seq<Byte>)
      requires Valid()
      modifies this
      ensures Valid() && (old(Tight()) ==> Tight())
      ensures Live() == old(Live()) + data
    {
      buffer := buffer + data;
    }

    /** std::string::erase clamps, so erasing more than there is empties the buffer. */
    method Erase(length: nat)
      requires Valid()
      modifies this
      ensures Valid() && Tight()
      ensures Live() == if length <= |old(Live())| then old(Live())[length..] else []
    {
      pendingRemoval := pendingRemoval + length;
      if pendingRemoval > |buffer| / 32 {
        buffer := if pendingRemoval <= |buffer| then buffer[pendingRemoval..] else [];
        pendingRemoval := 0;
      }
    }

    method Clear()
      modifies this
      ensures Valid() && Tight() && Live() == []
    {
      pendingRemoval, buffer := 0, [];
    }

    /** Cuts the live bytes, or extends them with zeros. */
    method Resize(length: nat)
      requires Valid()
      modifies this
      ensures Valid()
      ensures length >= |old(Live())| && old(Tight()) ==> Tight()
      ensures length >= |old(Live())| ==> Live() == old(Live()) + Zeros(length - |old(Live())|)
      ensures length < |old(Live())| ==> Live() == old(Live())[..length]
    {
      var total := length + pendingRemoval;
      buffer := if total <= |buffer| then buffer[..total] else buffer + Zeros(total - |buffer|);
    }

    /** A copy through the pointer that `data()` returns. */
    method Store(at: nat, data: seq<Byte>)
      requires Valid() && at + |data| <= |Live()|
      modifies this
      ensures Valid() && (old(Tight()) ==> Tight())
      ensures Live() == old(Live())[..at] + data + old(Live())[at + |data|..]
    {
      var from := pendingRemoval + at;
      buffer := buffer[..from] + data + buffer[from + |data|..];
    }

    function Length(): (n: nat)
      requires Valid()
      reads this
      ensures n == |Live()|
    {
      |buffer| - pendingRemoval
    }

    function Data(): (data: seq<Byte>)
      requires Valid()
      reads this
      ensures data == Live()
    {
      buffer[pendingRemoval..]
    }

    /** What getBufferedAmount reports: never far above the live bytes, and zero with them. */
    function TotalLength(): (n: nat)
      requires Valid() && Tight()
      reads this
      ensures |Live()| <= n && 31 * n <= 32 * |Live()|
    {
      |buffer|
    }
  }

  function Zeros(n: nat): (z: seq<Byte>)
    ensures |z| == n && forall i :: 0 <= i < n ==> z[i] == 0
  {
    seq(n, _ => 0)
  }

  /** The kernel's end of the connection. */
  class Kernel {
    var taken: seq<Byte>
    var script: seq<nat>

    method Write(data: seq<Byte>) returns (n: nat)
      modifies this
      ensures n == Takes(old(script), |data|)
      ensures taken == old(taken) + data[..n]
      ensures script == if old(script) == [] then [] else old(script)[1..]
    {
      n := Takes(script, |data|);
      taken := taken + data[..n];
      script := if script == [] then [] else script[1..];
    }
  }

  /** State shared by all sockets of one event loop. */
  class LoopData {
    const corkBuffer: array<Byte>
    var corkOffset: nat
    var corkedSocket: AsyncSocket?

    constructor ()
      ensures corkBuffer.Length == CORK_BUFFER_SIZE && corkOffset == 0 && corkedSocket == null && fresh(corkBuffer)
    {
      corkBuffer := new Byte[CORK_BUFFER_SIZE](_ => 0);
      corkOffset, corkedSocket := 0, null;
    }
  }

  method CopyInto(a: array<Byte>, at: nat, data: seq<Byte>)
    requires at + |data| <= a.Length
    modifies a
    ensures a[..] == old(a[..])[..at] + data + old(a[..])[at + |data|..]
  {
    for i := 0 to |data|
      invariant a[at..at + i] == data[..i]
      invariant a[..at] == old(a[..at]) && a[at + |data|..] == old(a[at + |data|..])
    {
      a[at + i] := data[i];
    }
    assert a[..] == a[..at] + a[at..at + |data|] + a[at + |data|..];
    assert old(a[..])[..at] == old(a[..at]) && old(a[..])[at + |data|..] == old(a[at + |data|..]);
  }

  /** Where getSendBuffer's pointer leads. */
  datatype Region = InCork(at: nat) | InBack(at: nat)

  class AsyncSocket {
    const loop: LoopData
    const back: BackPressure
    const kernel: Kernel

    constructor (loop: LoopData, kernel: Kernel)
      requires loop.corkBuffer.Length == CORK_BUFFER_SIZE && loop.corkOffset <= CORK_BUFFER_SIZE
      requires loop.corkedSocket == null ==> loop.corkOffset == 0
      ensures this.loop == loop && this.kernel == kernel && Valid() && Ok(Abs())
    {
      this.loop, this.kernel := loop, kernel;
      back := new BackPressure();
    }

    /** Holds even between uncork's release of the cork buffer and its emptying. */
    ghost predicate Consistent()
      reads this, loop, back
    {
      && loop.corkBuffer.Length == CORK_BUFFER_SIZE && loop.corkOffset <= CORK_BUFFER_SIZE
      && back.Valid() && back.Tight()
    }

    ghost predicate Valid()
      reads this, loop, back
    {
      Consistent() && (loop.corkedSocket == null ==> loop.corkOffset == 0)
    }

    ghost function Corked(): seq<Byte>
      requires Consistent()
      reads this, loop, loop.corkBuffer, back
    {
      if loop.corkedSocket == this then loop.corkBuffer[..loop.corkOffset] else []
    }

    ghost function Abs(): Sock
      requires Consistent()
      reads this, loop, loop.corkBuffer, back, kernel
    {
      Sock(kernel.taken, kernel.script, back.Live(),
           if loop.corkedSocket == this then Mine
           else if loop.corkedSocket == null then Free
           else Other(loop.corkOffset),
           Corked())
    }

    /** Terminates the program when another socket has bytes in the cork buffer. */
    method Cork() returns (terminated: bool)
      requires Valid()
      modifies loop
      ensures Valid()
      ensures terminated == CorkTerminates(old(Abs()))
      ensures Ok(old(Abs())) ==> Abs() == if terminated then old(Abs()) else SocketSpec.Cork(old(Abs()))
    {
      if loop.corkOffset != 0 && loop.corkedSocket != this {
        return true;
      }
      loop.corkedSocket := this;
      return false;
    }

    /**
     Reserves `size` bytes; the caller then fills them. Whatever was in the region,
     the socket is as after appending that much to the stream.
     */
    method GetSendBuffer(size: nat) returns (region: Region, attribute: Attribute)
      requires Valid() && Ok(Abs())
      modifies loop, back
      ensures Valid()
      ensures forall content: seq<Byte> :: |content| == size ==>
        Filled(Abs(), region, content) == SocketSpec.GetSendBuffer(old(Abs()), content).0
        && attribute == SocketSpec.GetSendBuffer(old(Abs()), content).1
      ensures InRegion(Abs(), region, size) && (attribute == NeedsDrain <==> region.InBack?)
    {
      var existing := back.Length();
      if existing == 0 && (loop.corkedSocket == this || loop.corkedSocket == null)
         && loop.corkOffset + size < CORK_BUFFER_SIZE {
        region := InCork(loop.corkOffset);
        if loop.corkedSocket == this {
          attribute := NeedsNothing;
        } else {
          var _ := Cork();
          attribute := NeedsUncork;
        }
        loop.corkOffset := loop.corkOffset + size;
        assert loop.corkBuffer[..loop.corkOffset][..loop.corkOffset - size] == old(Abs()).cork;
      } else {
        region := ReserveBehindBackPressure(size);
        attribute := NeedsDrain;
      }
    }

    /** The fallback: the cork buffer moves behind the backpressure, and the region behind both. */
    method ReserveBehindBackPressure(size: nat) returns (region: Region)
      requires Valid()
      modifies loop, back
      ensures Valid()
      ensures InRegion(Abs(), region, size) && region == InBack(|old(Abs()).back| + |old(Abs()).cork|)
      ensures back.Live()[..region.at] == old(Abs()).back + old(Abs()).cork
      ensures Abs() == old(Abs()).(back := back.Live(), cork := [])
    {
      var existing, ours := back.Length(), 0;
      if loop.corkedSocket == this && loop.corkOffset != 0 {
        ours := loop.corkOffset;
        loop.corkOffset := 0;
      }
      assert loop.corkBuffer[..ours] == old(Abs()).cork;
      back.Resize(ours + existing + size);
      back.Store(existing, loop.corkBuffer[..ours]);
      region := InBack(ours + existing);
    }

    /** What the caller of getSendBuffer does with the pointer. */
    method Fill(region: Region, content: seq<Byte>)
      requires Valid() && InRegion(Abs(), region, |content|)
      modifies loop.corkBuffer, back
      ensures Valid() && Abs() == Filled(old(Abs()), region, content)
    {
      match region
      case InCork(at) =>
        CopyInto(loop.corkBuffer, at, content);
        assert loop.corkBuffer[..loop.corkOffset] == loop.corkBuffer[..][..at] + content;
      case InBack(at) =>
        back.Store(at, content);
    }

    /** Both halves together: the content joins the end of the stream. */
    method PutInSendBuffer(content: seq<Byte>) returns (attribute: Attribute)
      requires Valid() && Ok(Abs())
      modifies loop, loop.corkBuffer, back
      ensures Valid() && (Abs(), attribute) == SocketSpec.GetSendBuffer(old(Abs()), content)
      ensures Ok(Abs()) && Stream(Abs()) == old(Stream(Abs())) + content
    {
      SendBufferLedger(Abs(), content);
      var region, a := GetSendBuffer(|content|);
      Fill(region, content);
      attribute := a;
    }

    method Write(src: seq<Byte>, optionally: bool) returns (written: nat, failed: bool)
      requires Consistent()
      modifies loop, loop.corkBuffer, back, kernel
      ensures Consistent() && (old(Valid()) ==> Valid())
      ensures Reply(Abs(), written, failed) == SocketSpec.Write(old(Abs()), src, optionally)
      ensures old(loop.corkedSocket) != this ==> unchanged(loop, loop.corkBuffer)
      ensures loop.corkedSocket in {old(loop.corkedSocket), null}
      decreases loop.corkedSocket == this, 2
    {
      var drained := Drain();
      if !drained && optionally {
        written, failed := 0, true;
      } else if !drained {
        Queue(src);
        written, failed := |src|, true;
      } else {
        written, failed := Send(src, optionally);
      }
    }

    /** The source joins the backpressure. */
    method Queue(src: seq<Byte>)
      requires Consistent()
      modifies back
      ensures Consistent() && Abs() == old(Abs()).(back := old(Abs()).back + src)
    {
      back.Append(src);
    }

    /** The first part of `write`: write off as much backpressure as the kernel takes. */
    method Drain() returns (drained: bool)
      requires Consistent()
      modifies back, kernel
      ensures Consistent()
      ensures drained == (Takes(old(Abs()).script, |old(Abs()).back|) == |old(Abs()).back|)
      ensures Abs() == if drained then Drained(old(Abs())) else PartlyDrained(old(Abs()))
      ensures drained ==> back.Live() == []
    {
      if back.Length() != 0 {
        var n := kernel.Write(back.Data());
        if n < back.Length() {
          back.Erase(n);
          return false;
        }
        back.Clear();
      }
      return true;
    }

    /** The rest of `write`, with no backpressure in the way. */
    method Send(src: seq<Byte>, optionally: bool) returns (written: nat, failed: bool)
      requires Consistent() && back.Live() == []
      modifies loop, loop.corkBuffer, back, kernel
      ensures Consistent() && (old(Valid()) ==> Valid())
      ensures Reply(Abs(), written, failed) == SocketSpec.Send(old(Abs()), src, optionally)
      ensures old(loop.corkedSocket) != this ==> unchanged(loop, loop.corkBuffer)
      ensures loop.corkedSocket in {old(loop.corkedSocket), null}
      decreases loop.corkedSocket == this, 1
    {
      if |src| != 0 {
        if loop.corkedSocket == this {
          if CORK_BUFFER_SIZE - loop.corkOffset >= |src| {
            CopyInto(loop.corkBuffer, loop.corkOffset, src);
            loop.corkOffset := loop.corkOffset + |src|;
            assert loop.corkBuffer[..loop.corkOffset] == old(Abs()).cork + src;
          } else {
            written, failed := Uncork(src, optionally);
            return;
          }
        } else {
          var n := kernel.Write(src);
          if n < |src| {
            if optionally {
              return n, true;
            }
            back.Append(src[n..]);
            return |src|, true;
          }
        }
      }
      return |src|, false;
    }

    method Uncork(src: seq<Byte>, optionally: bool) returns (written: nat, failed: bool)
      requires Consistent()
      modifies loop, loop.corkBuffer, back, kernel
      ensures Consistent() && (old(Valid()) ==> Valid())
      ensures Reply(Abs(), written, failed) == SocketSpec.Uncork(old(Abs()), src, optionally)
      ensures old(loop.corkedSocket) != this ==> unchanged(loop, loop.corkBuffer)
      ensures loop.corkedSocket in {old(loop.corkedSocket), null}
      decreases loop.corkedSocket == this, 0
    {
      if loop.corkedSocket == this {
        loop.corkedSocket := null;
        if loop.corkOffset != 0 {
          ghost var s1 := Abs();
          WriteDirect(s1, loop.corkBuffer[..loop.corkOffset], false);
          written, failed := Write(loop.corkBuffer[..loop.corkOffset], false);
          loop.corkOffset := 0;
          if failed {
            return 0, true;
          }
        }
        written, failed := Write(src, optionally);
      } else {
        return 0, false;
      }
    }

    /** The whole path at once: what the caller was told is what joined the stream. */
    method WriteAndAccount(src: seq<Byte>, optionally: bool) returns (written: nat, failed: bool)
      requires Valid() && Ok(Abs())
      modifies loop, loop.corkBuffer, back, kernel
      ensures Valid() && Ok(Abs()) && written <= |src|
      ensures Stream(Abs()) == old(Stream(Abs())) + src[..written]
      ensures !optionally ==> (failed <==> back.Live() != [])
      ensures failed <==> written < |src| || back.Live() != []
    {
      WriteLedger(Abs(), src, optionally);
      written, failed := Write(src, optionally);
    }

    /** A write leaves every other socket of the loop as it was, except that the cork buffer may become free. */
    method WriteBeside(other: AsyncSocket, src: seq<Byte>, optionally: bool) returns (written: nat, failed: bool)
      requires Valid() && other.Valid()
      requires other != this && other.loop == loop && other.back != back && other.kernel != kernel
      modifies loop, loop.corkBuffer, back, kernel
      ensures Valid() && other.Valid()
      ensures other.Abs() == old(other.Abs()).(owner := other.Abs().owner)
      ensures old(loop.corkedSocket) == other ==> other.Abs().owner.Mine?
    {
      written, failed := WriteFramed(src, optionally);
      assert loop.corkedSocket == other ==> old(loop.corkedSocket) == other;
      assert other.Corked() == old(other.Corked());
    }

    /** What a write may change of the loop. */
    method WriteFramed(src: seq<Byte>, optionally: bool) returns (written: nat, failed: bool)
      requires Valid()
      modifies loop, loop.corkBuffer, back, kernel
      ensures Valid() && loop.corkedSocket in {old(loop.corkedSocket), null}
      ensures old(loop.corkedSocket) != this ==> unchanged(loop, loop.corkBuffer)
    {
      written, failed := Write(src, optionally);
    }
  }

  ghost predicate InRegion(s: Sock, region: Region, size: nat) {
    match region
    case InCork(at) => s.owner.Mine? && at + size == |s.cork|
    case InBack(at) => at + size == |s.back|
  }

  /** The socket with new bytes in a reserved region. */
  ghost function Filled(s: Sock, region: Region, content: seq<Byte>): Sock {
    match region
    case InCork(at) => s.(cork := if at <= |s.cork| then s.cork[..at] + content else s.cork)
    case InBack(at) => s.(back := if at <= |s.back| then s.back[..at] + content else s.back)
  }
}
