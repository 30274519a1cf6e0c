/**
 * The socket list of socket_bundle.c: a `socket_manager` holds a singly
 * linked list of `socket_node`s, newest first. Nodes are added at the
 * head, found and removed by file descriptor (the first match only), and
 * the list gives the bound passed to `select`. A server node that accepts
 * a connection adds a client node for it.
 *
 * The endpoint and address kinds come from socket_bundle.h, which is not
 * part of this model; they are datatypes here, with a case for any other
 * code the integer fields could hold.
 */
module SocketBundle {
  import opened Wrappers

  /** SERVER_SOCKET, CLIENT_SOCKET, or any other code. */
  datatype Endpoint = ServerSocket | ClientSocket | OtherEndpoint(code: int)

  /** INET, UNIX, or any other code. */
  datatype AddrType = Inet | Unix | OtherAddr(code: int)

  /** What a node records about its socket. */
  datatype Sock = Sock(endpoint: Endpoint, addrType: AddrType, sockFd: int, parentId: int)

  /** `socket_node`: the fields set when it is made, and the link to the next node. */
  class SocketNode {
    const endpoint: Endpoint
    const addrType: AddrType
    const sockFd: int
    const parentId: int
    var next: SocketNode?

    constructor(endpoint: Endpoint, addrType: AddrType, sockFd: int, parentId: int, next: SocketNode?)
      ensures this.endpoint == endpoint && this.addrType == addrType
      ensures this.sockFd == sockFd && this.parentId == parentId && this.next == next
    {
      this.endpoint := endpoint;
      this.addrType := addrType;
      this.sockFd := sockFd;
      this.parentId := parentId;
      this.next := next;
    }
  }

  function SockOf(n: SocketNode): Sock
  {
    Sock(n.endpoint, n.addrType, n.sockFd, n.parentId)
  }

  function Socks(ns: seq<SocketNode>): (s: seq<Sock>)
    ensures |s| == |ns| && forall i :: 0 <= i < |ns| ==> s[i] == SockOf(ns[i])
  {
    seq(|ns|, i requires 0 <= i < |ns| => SockOf(ns[i]))
  }

  // ---------------------------------------------------------------------
  // The list operations as functions of the list's contents
  // ---------------------------------------------------------------------

  /** The position of the first socket with descriptor `fd`. */
  function FirstIndex(s: seq<Sock>, fd: int): (r: Option<nat>)
    ensures r.Some? ==> r.value < |s| && s[r.value].sockFd == fd
  {
    if s == [] then None
    else if s[0].sockFd == fd then Some(0)
    else match FirstIndex(s[1..], fd)
      case None => None
      case Some(i) => Some(i + 1)
  }

  /** None means no socket has `fd`; otherwise no socket before the one found has it. */
  lemma {:induction false} FirstIndexIsFirst(s: seq<Sock>, fd: int)
    ensures FirstIndex(s, fd).None? <==> forall i :: 0 <= i < |s| ==> s[i].sockFd != fd
    ensures FirstIndex(s, fd).Some? ==> forall j :: 0 <= j < FirstIndex(s, fd).value ==> s[j].sockFd != fd
  {
    if s != [] && s[0].sockFd != fd {
      FirstIndexIsFirst(s[1..], fd);
      assert forall i :: 1 <= i < |s| ==> s[i] == s[1..][i - 1];
    }
  }

  /** A match with none before it is the first match. */
  lemma FirstIndexAt(s: seq<Sock>, fd: int, k: nat)
    requires k < |s| && s[k].sockFd == fd
    requires forall j :: 0 <= j < k ==> s[j].sockFd != fd
    ensures FirstIndex(s, fd) == Some(k)
  {
    FirstIndexIsFirst(s, fd);
  }

  /** The list without its first socket with descriptor `fd`. */
  function RemoveFirst(s: seq<Sock>, fd: int): seq<Sock>
  {
    match FirstIndex(s, fd)
    case None => s
    case Some(i) => s[..i] + s[i + 1..]
  }

  /** `parent_id` as `_socket_add_node` stores it: the argument if positive, else 0. */
  function ParentOf(parentId: int): (p: int)
    ensures p >= 0 && (p == parentId || p == 0)
    ensures p > 0 <==> parentId > 0
  {
    if parentId > 0 then parentId else 0
  }

  /** The larger of two descriptors, as `if(fd > max_fd) max_fd = fd` keeps it. */
  function Max(a: int, b: int): int
  {
    if b > a then b else a
  }

  /** The largest descriptor in the list, or 0 when none is larger. */
  function MaxFd(s: seq<Sock>): int
  {
    if s == [] then 0 else Max(MaxFd(s[..|s| - 1]), s[|s| - 1].sockFd)
  }

  /** The list after a server socket accepted descriptor `fd` (when `fd` is not negative). */
  function AfterAccept(server: Sock, fd: int, s: seq<Sock>): seq<Sock>
  {
    if fd < 0 then s
    else if server.addrType == Inet || server.addrType == Unix then
      [Sock(ClientSocket, server.addrType, fd, ParentOf(server.sockFd))] + s
    else s
  }

  /**
   * Division as C does it for a positive divisor: the quotient is rounded
   * toward zero, so the remainder takes the sign of the dividend and is
   * smaller than the divisor in magnitude.
   */
  function TruncDiv(a: int, b: int): (q: int)
    requires b > 0
    ensures a >= 0 ==> 0 <= a - q * b < b
    ensures a < 0 ==> -b < a - q * b <= 0
  {
    if a >= 0 then a / b else -((-a) / b)
  }

  const Million := 1000000

  // ---------------------------------------------------------------------
  // Properties of the list operations
  // ---------------------------------------------------------------------

  /** Removing takes out exactly one socket, the first match, when there is one. */
  lemma RemoveFirstTakesOne(s: seq<Sock>, fd: int)
    ensures FirstIndex(s, fd).None? ==> RemoveFirst(s, fd) == s
    ensures FirstIndex(s, fd).Some? ==>
      && |RemoveFirst(s, fd)| == |s| - 1
      && multiset(RemoveFirst(s, fd)) + multiset{s[FirstIndex(s, fd).value]} == multiset(s)
  {
    match FirstIndex(s, fd)
    case None =>
    case Some(i) => DropOne(s, i);
  }

  lemma DropOne(s: seq<Sock>, i: nat)
    requires i < |s|
    ensures |s[..i] + s[i + 1..]| == |s| - 1
    ensures multiset(s[..i] + s[i + 1..]) + multiset{s[i]} == multiset(s)
  {
    assert s == s[..i] + [s[i]] + s[i + 1..];
  }

  /** Removing a descriptor just added undoes the addition. */
  lemma RemoveUndoesAdd(x: Sock, s: seq<Sock>)
    ensures RemoveFirst([x] + s, x.sockFd) == s
  {
    assert FirstIndex([x] + s, x.sockFd) == Some(0);
  }

  /** Removing another descriptor leaves the new head in place. */
  lemma {:induction false} RemovePassesOverOtherHead(x: Sock, s: seq<Sock>, fd: int)
    requires x.sockFd != fd
    ensures RemoveFirst([x] + s, fd) == [x] + RemoveFirst(s, fd)
  {
    assert ([x] + s)[1..] == s;
    match FirstIndex(s, fd)
    case None =>
    case Some(i) =>
      assert FirstIndex([x] + s, fd) == Some(i + 1);
      assert ([x] + s)[..i + 1] == [x] + s[..i];
      assert ([x] + s)[i + 2..] == s[i + 1..];
  }

  /** After an addition the new socket is the one found for its descriptor. */
  lemma FindFindsNewest(x: Sock, s: seq<Sock>)
    ensures FirstIndex([x] + s, x.sockFd) == Some(0)
  {
  }

  /** Dropping the first node with descriptor `fd` removes its socket from the contents. */
  lemma RemovedAt(ns: seq<SocketNode>, k: nat, fd: int)
    requires k < |ns| && FirstIndex(Socks(ns), fd) == Some(k)
    ensures Socks(ns[..k] + ns[k + 1..]) == RemoveFirst(Socks(ns), fd)
  {
    assert Socks(ns[..k] + ns[k + 1..]) == Socks(ns)[..k] + Socks(ns)[k + 1..];
  }

  /** Every descriptor is at most the maximum, which is never negative. */
  lemma {:induction false} MaxFdBounds(s: seq<Sock>)
    ensures MaxFd(s) >= 0
    ensures forall i :: 0 <= i < |s| ==> s[i].sockFd <= MaxFd(s)
  {
    if s != [] {
      var init := s[..|s| - 1];
      MaxFdBounds(init);
      forall i | 0 <= i < |s|
        ensures s[i].sockFd <= MaxFd(s)
      {
        if i < |s| - 1 {
          assert s[i] == init[i];
        }
      }
    }
  }

  /** The maximum is 0 or the descriptor of some socket in the list. */
  lemma {:induction false} MaxFdAttained(s: seq<Sock>)
    ensures MaxFd(s) == 0 || exists i :: 0 <= i < |s| && s[i].sockFd == MaxFd(s)
  {
    if s != [] {
      var init := s[..|s| - 1];
      MaxFdAttained(init);
      if MaxFd(s) != s[|s| - 1].sockFd && MaxFd(s) != 0 {
        var i :| 0 <= i < |init| && init[i].sockFd == MaxFd(init);
        assert s[i] == init[i];
      }
    }
  }

  /** The bound given to `select` is above every descriptor in the list. */
  lemma SelectBoundCoversAll(s: seq<Sock>)
    ensures forall i :: 0 <= i < |s| ==> s[i].sockFd < MaxFd(s) + 1
    ensures MaxFd(s) + 1 >= 1
  {
    MaxFdBounds(s);
  }

  /** A client accepted on an INET or UNIX server is found first for its descriptor, with the server as parent. */
  lemma AcceptedClientIsFound(server: Sock, fd: int, s: seq<Sock>)
    requires fd >= 0 && (server.addrType == Inet || server.addrType == Unix)
    ensures var s' := AfterAccept(server, fd, s);
      && FirstIndex(s', fd) == Some(0)
      && s'[0].endpoint == ClientSocket && s'[0].addrType == server.addrType
      && (server.sockFd > 0 ==> s'[0].parentId == server.sockFd)
      && s'[1..] == s
  {
  }

  /** No node appears twice. */
  ghost predicate Distinct(ns: seq<SocketNode>)
  {
    forall i, j :: 0 <= i < j < |ns| ==> ns[i] != ns[j]
  }

  /** Each node links to the one after it, and the last to null. */
  ghost predicate Chained(ns: seq<SocketNode>)
    reads ns
  {
    && (forall i :: 0 <= i < |ns| - 1 ==> ns[i].next == ns[i + 1])
    && (ns != [] ==> ns[|ns| - 1].next == null)
  }

  lemma DistinctWithout(ns: seq<SocketNode>, k: nat)
    requires k < |ns| && Distinct(ns)
    ensures Distinct(ns[..k] + ns[k + 1..])
    ensures forall i :: 0 <= i < |ns| && i != k ==> ns[i] != ns[k]
  {
    var rest := ns[..k] + ns[k + 1..];
    forall i, j | 0 <= i < j < |rest|
      ensures rest[i] != rest[j]
    {
      var i' := if i < k then i else i + 1;
      var j' := if j < k then j else j + 1;
      assert rest[i] == ns[i'] && rest[j] == ns[j'];
    }
  }

  // ---------------------------------------------------------------------
  // The manager
  // ---------------------------------------------------------------------

  /** `socket_manager`: the head of the node list. */
  class SocketManager {
    var socket: SocketNode?
    /** The nodes in list order. */
    ghost var nodes: seq<SocketNode>

    ghost predicate Valid()
      reads this, nodes
    {
      && (if nodes == [] then socket == null else socket == nodes[0])
      && Chained(nodes)
      && Distinct(nodes)
    }

    ghost function Contents(): seq<Sock>
      reads this
    {
      Socks(nodes)
    }

    constructor()
      ensures Valid() && Contents() == []
    {
      socket := null;
      nodes := [];
    }

    /** `_socket_add_node`: a new node at the head. */
    method AddNode(endpoint: Endpoint, addrType: AddrType, sockFd: int, parentId: int) returns (n: SocketNode)
      requires Valid()
      modifies this
      ensures Valid() && fresh(n) && nodes == [n] + old(nodes)
      ensures Contents() == [Sock(endpoint, addrType, sockFd, ParentOf(parentId))] + old(Contents())
    {
      var parent := 0;
      if parentId > 0 {
        parent := parentId;
      }
      n := new SocketNode(endpoint, addrType, sockFd, parent, socket);
      socket := n;
      nodes := [n] + nodes;
      assert Socks(nodes) == [SockOf(n)] + Socks(old(nodes));
    }

    /** `socket_find_node`: the first node with descriptor `fd`, or null. */
    method FindNode(fd: int) returns (n: SocketNode?)
      requires Valid()
      ensures n == null <==> FirstIndex(Contents(), fd).None?
      ensures n != null ==> n == nodes[FirstIndex(Contents(), fd).value]
    {
      n := socket;
      ghost var k := 0;
      while n != null
        invariant 0 <= k <= |nodes|
        invariant n == (if k < |nodes| then nodes[k] else null)
        invariant forall j :: 0 <= j < k ==> nodes[j].sockFd != fd
        decreases |nodes| - k
      {
        if n.sockFd == fd {
          FirstIndexAt(Contents(), fd, k);
          return;
        }
        n := n.next;
        k := k + 1;
      }
      FirstIndexIsFirst(Contents(), fd);
    }

    /** `socket_remove_node`: unlinks the first node with descriptor `fd`, if any. */
    method RemoveNode(fd: int)
      requires Valid()
      modifies this, nodes
      ensures Valid() && Contents() == RemoveFirst(old(Contents()), fd)
    {
      var head := socket;
      var tail := head;
      if head == null {
        return;
      }
      if head.sockFd == fd {
        FirstIndexAt(Contents(), fd, 0);
        UnlinkHead(head, fd);
        return;
      }
      head := head.next;
      ghost var k := 1;
      while head != null
        invariant Valid() && nodes == old(nodes)
        invariant 1 <= k <= |nodes| && tail == nodes[k - 1]
        invariant head == (if k < |nodes| then nodes[k] else null)
        invariant forall j :: 0 <= j < k ==> nodes[j].sockFd != fd
        decreases |nodes| - k
      {
        if head.sockFd == fd {
          FirstIndexAt(Contents(), fd, k);
          RemovedAt(nodes, k, fd);
          Unlink(tail, head, k);
          return;
        }
        tail := head;
        head := head.next;
        k := k + 1;
      }
      FirstIndexIsFirst(Contents(), fd);
    }

    /** Unlinks the head node, the first with descriptor `fd`: the head moves on. */
    method UnlinkHead(head: SocketNode, fd: int)
      requires Valid() && nodes != [] && head == nodes[0] && FirstIndex(Contents(), fd) == Some(0)
      modifies this
      ensures Valid() && Contents() == RemoveFirst(old(Contents()), fd)
    {
      socket := head.next;
      RemovedAt(nodes, 0, fd);
      nodes := nodes[1..];
    }

    /** Unlinks the node at position `k > 0`: `tail->next = head->next`. */
    method Unlink(tail: SocketNode, head: SocketNode, ghost k: nat)
      requires Valid() && 0 < k < |nodes| && tail == nodes[k - 1] && head == nodes[k]
      modifies this, tail
      ensures Valid() && nodes == old(nodes[..k] + nodes[k + 1..])
    {
      ghost var ns := nodes;
      tail.next := head.next;
      DistinctWithout(ns, k);
      nodes := ns[..k] + ns[k + 1..];
      assert Chained(nodes) by {
        forall i | 0 <= i < |nodes| - 1
          ensures nodes[i].next == nodes[i + 1]
        {
          if i + 1 < k {
            assert nodes[i] == ns[i] != tail;
          } else if i + 1 > k {
            assert nodes[i] == ns[i + 1] != tail;
          }
        }
        if k + 1 < |ns| {
          assert nodes[|nodes| - 1] == ns[|ns| - 1] != tail;
        }
      }
    }

    /** The `max_fd` loop of `socket_wait_all`: the bound passed to `select`. */
    method SelectBound() returns (maxFd: int)
      requires Valid()
      ensures maxFd == MaxFd(Contents()) + 1
    {
      var node := socket;
      maxFd := 0;
      ghost var k := 0;
      while node != null
        invariant 0 <= k <= |nodes|
        invariant node == (if k < |nodes| then nodes[k] else null)
        invariant maxFd == MaxFd(Contents()[..k])
        decreases |nodes| - k
      {
        assert Contents()[..k + 1][..k] == Contents()[..k];
        if node.sockFd > maxFd {
          maxFd := node.sockFd;
        }
        node := node.next;
        k := k + 1;
      }
      assert Contents()[..k] == Contents();
      maxFd := maxFd + 1;
    }

    /**
     * The list effect of `_socket_handle_new_client`: `acceptedFd` is what
     * `accept` returned on the server node. -1 for a null node or a failed
     * accept; otherwise 0, with a client node added for an INET or UNIX
     * server.
     */
    method HandleNewClient(server: SocketNode?, acceptedFd: int) returns (r: int)
      requires Valid()
      modifies this
      ensures Valid()
      ensures server == null || acceptedFd < 0 ==> r == -1 && Contents() == old(Contents())
      ensures server != null && acceptedFd >= 0 ==>
        r == 0 && Contents() == AfterAccept(SockOf(server), acceptedFd, old(Contents()))
    {
      if server == null {
        return -1;
      }
      if acceptedFd < 0 {
        return -1;
      }
      if server.addrType == Inet {
        var _ := AddNode(ClientSocket, Inet, acceptedFd, server.sockFd);
      } else if server.addrType == Unix {
        var _ := AddNode(ClientSocket, Unix, acceptedFd, server.sockFd);
      }
      return 0;
    }
  }

  /**
   * The seconds/microseconds split of `socket_send_timeout`:
   * `secs = usecs / 1000000` truncating, then `usecs -= secs * 1000000`.
   */
  method SplitTimeout(usecs: int) returns (secs: int, rem: int)
    ensures secs * Million + rem == usecs
    ensures usecs >= 0 ==> secs == usecs / Million && 0 <= rem < Million
    ensures usecs < 0 ==> -Million < rem <= 0
  {
    var mil := Million;
    secs := TruncDiv(usecs, mil);
    rem := usecs - secs * mil;
  }
}
