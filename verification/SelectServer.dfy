/** A server that waits with select on two listening sockets and on its clients, which
    it keeps in a table of fixed size. */
module SelectServer {

  const EMPTY := -1

  /** What one call of select and the calls after it find: the ready descriptors (none on a
      timeout or an error), the descriptor that accept gives (-1 when it fails), and the
      clients that turn out to have closed. */
  datatype Round = Round(ready: set<int>, conn: int, closed: set<int>)

  // ---------- the server as a bounded set of clients ----------

  /** select watches the monitored set only; a descriptor from accept is a new one. */
  predicate Possible(clients: set<int>, sockT: int, sockU: int, round: Round) {
    var watched := {sockT, sockU} + clients;
    round.ready <= watched && (round.conn == EMPTY || (round.conn >= 0 && round.conn !in watched))
  }

  predicate Accepted(clients: set<int>, size: nat, sockT: int, round: Round) {
    sockT in round.ready && round.conn != EMPTY && |clients| < size
  }

  /** The clients after one round: a new one if there is room, and without those that
      were ready because they closed. */
  function NextClients(clients: set<int>, size: nat, sockT: int, round: Round): set<int> {
    clients - round.ready * round.closed + if Accepted(clients, size, sockT, round) then {round.conn} else {}
  }

  /** Who stays and who comes: a connection is taken when the first listening socket is ready,
      accept gives a descriptor and there are fewer clients than slots. */
  lemma NextClientsIs(clients: set<int>, size: nat, sockT: int, round: Round)
    ensures NextClients(clients, size, sockT, round) ==
            clients - round.ready * round.closed +
            if sockT in round.ready && round.conn != -1 && |clients| < size then {round.conn} else {}
    ensures Accepted(clients, size, sockT, round) <==>
              sockT in round.ready && round.conn != -1 && |clients| < size
  {
  }

  /** A client that is accepted in a round is not one of its ready clients. */
  lemma RoundEffect(clients: set<int>, now: set<int>, size: nat, sockT: int, round: Round)
    requires now == clients + if Accepted(clients, size, sockT, round) then {round.conn} else {}
    requires round.conn !in round.ready
    ensures now * round.ready == clients * round.ready
    ensures now - round.ready * round.closed == NextClients(clients, size, sockT, round)
    ensures |clients * round.ready| == 0 ==> now == NextClients(clients, size, sockT, round)
  {
    if |clients * round.ready| == 0 {
      assert clients * round.ready == {};
    }
  }

  lemma NothingReady(clients: set<int>, size: nat, sockT: int, round: Round)
    requires |round.ready| == 0
    ensures NextClients(clients, size, sockT, round) == clients && clients * round.ready == {}
  {
    assert round.ready == {};
  }

  lemma Nobody(served: set<int>)
    requires |served| == 0
    ensures multiset(served) == multiset{}
  {
  }

  // ---------- the table ----------

  /** The descriptors in the table */
  function Clients(slots: seq<int>): set<int> {
    set x | x in slots && x != EMPTY
  }

  ghost predicate Distinct(slots: seq<int>) {
    forall i, j | 0 <= i < j < |slots| && slots[i] != EMPTY :: slots[i] != slots[j]
  }

  /** The ready clients in the order of the table */
  function ReadyOf(slots: seq<int>, ready: set<int>): seq<int> {
    if |slots| == 0 then []
    else (if slots[0] != EMPTY && slots[0] in ready then [slots[0]] else []) + ReadyOf(slots[1..], ready)
  }

  /** The table without the ready clients that have closed */
  function Cleared(slots: seq<int>, gone: set<int>): (r: seq<int>)
    ensures |r| == |slots| && forall i | 0 <= i < |slots| :: r[i] == if slots[i] in gone then EMPTY else slots[i]
  {
    seq(|slots|, i requires 0 <= i < |slots| => if slots[i] in gone then EMPTY else slots[i])
  }

  function ReadyOne(fd: int, ready: set<int>): set<int> {
    if fd != EMPTY && fd in ready then {fd} else {}
  }

  /** The first slot and the others */
  lemma Head(slots: seq<int>, ready: set<int>)
    requires |slots| > 0 && Distinct(slots)
    ensures var all, rest := Clients(slots) * ready, Clients(slots[1..]) * ready;
            all == rest + ReadyOne(slots[0], ready) && rest !! ReadyOne(slots[0], ready)
    ensures Distinct(slots[1..])
  {
    assert slots == [slots[0]] + slots[1..];
    assert slots[0] in slots[1..] ==> slots[0] == EMPTY;
  }

  /** How many ready clients there are from slot j on */
  function Unmet(slots: seq<int>, j: int, ready: set<int>): nat
    requires 0 <= j <= |slots|
  {
    |Clients(slots[j..]) * ready|
  }

  /** The clients before slot j that have gone */
  function Closed(slots: seq<int>, j: int, gone: set<int>): set<int>
    requires 0 <= j <= |slots|
  {
    Clients(slots[..j]) * gone
  }

  lemma ScanStart(slots: seq<int>, ready: set<int>, gone: set<int>)
    ensures Unmet(slots, 0, ready) == |Clients(slots) * ready| && Closed(slots, 0, gone) == {}
    ensures ReadyOf(slots[0..], ready) == ReadyOf(slots, ready)
  {
    assert slots[0..] == slots && slots[..0] == [];
  }

  /** Scanning one more slot: as long as some ready client is not yet met there is one. */
  lemma ScanNext(slots: seq<int>, j: int, ready: set<int>, gone: set<int>)
    requires 0 <= j <= |slots| && Distinct(slots) && Unmet(slots, j, ready) > 0
    ensures j < |slots|
    ensures Unmet(slots, j, ready) ==
            Unmet(slots, j + 1, ready) + if slots[j] != EMPTY && slots[j] in ready then 1 else 0
    ensures ReadyOf(slots[j..], ready) ==
            (if slots[j] != EMPTY && slots[j] in ready then [slots[j]] else []) + ReadyOf(slots[j + 1..], ready)
    ensures Closed(slots, j + 1, gone) == Closed(slots, j, gone) + ReadyOne(slots[j], gone)
  {
    var tail := slots[j..];
    NoClients(ready);
    assert j < |slots| by {
      assert j == |slots| ==> tail == [];
    }
    assert tail[1..] == slots[j + 1..];
    ClosedNext(slots, j, gone);
    DistinctTail(slots, j);
    hide Clients, Closed, Distinct;
    Head(tail, ready);
  }

  lemma ClosedNext(slots: seq<int>, j: int, gone: set<int>)
    requires 0 <= j < |slots|
    ensures Closed(slots, j + 1, gone) == Closed(slots, j, gone) + ReadyOne(slots[j], gone)
  {
    assert slots[..j + 1] == slots[..j] + [slots[j]];
  }

  lemma ScanEnd(slots: seq<int>, j: int, ready: set<int>, gone: set<int>)
    requires 0 <= j <= |slots| && Distinct(slots) && Unmet(slots, j, ready) == 0 && gone <= ready
    ensures ReadyOf(slots[j..], ready) == []
    ensures forall i | j <= i < |slots| && slots[i] in gone :: slots[i] == EMPTY
    ensures Closed(slots, j, gone) == Clients(slots) * gone
  {
    DistinctTail(slots, j);
    NoneReady(slots[j..], ready);
    hide Distinct, ReadyOf;
    forall i | j <= i < |slots| && slots[i] in gone ensures slots[i] == EMPTY {
      assert slots[j..][i - j] == slots[i];
    }
    assert slots == slots[..j] + slots[j..];
  }

  lemma DistinctTail(slots: seq<int>, j: int)
    requires 0 <= j <= |slots| && Distinct(slots)
    ensures Distinct(slots[j..])
  {
  }

  /** Every ready client occurs once in the order of service. */
  lemma {:induction false} EachOnce(slots: seq<int>, ready: set<int>)
    requires Distinct(slots)
    ensures multiset(ReadyOf(slots, ready)) == multiset(Clients(slots) * ready)
  {
    hide Clients;
    if |slots| > 0 {
      Head(slots, ready);
      EachOnce(slots[1..], ready);
    } else {
      NoClients(ready);
    }
  }

  /** They are served in the order of the table. */
  lemma {:induction false} InTableOrder(slots: seq<int>, ready: set<int>, m: nat, n: nat) returns (i: nat, j: nat)
    requires m < n < |ReadyOf(slots, ready)|
    ensures i < j < |slots| && ReadyOf(slots, ready)[m] == slots[i] && ReadyOf(slots, ready)[n] == slots[j]
  {
    if slots[0] == EMPTY || slots[0] !in ready {
      i, j := InTableOrder(slots[1..], ready, m, n);
      i, j := i + 1, j + 1;
    } else if m > 0 {
      i, j := InTableOrder(slots[1..], ready, m - 1, n - 1);
      i, j := i + 1, j + 1;
    } else {
      var k := InTable(slots[1..], ready, n - 1);
      i, j := 0, k + 1;
    }
  }

  lemma {:induction false} InTable(slots: seq<int>, ready: set<int>, n: nat) returns (i: nat)
    requires n < |ReadyOf(slots, ready)|
    ensures i < |slots| && ReadyOf(slots, ready)[n] == slots[i] && slots[i] in ready && slots[i] != EMPTY
  {
    if slots[0] != EMPTY && slots[0] in ready {
      if n > 0 {
        i := InTable(slots[1..], ready, n - 1);
        i := i + 1;
      } else {
        i := 0;
      }
    } else {
      i := InTable(slots[1..], ready, n);
      i := i + 1;
    }
  }

  lemma NoClients(ready: set<int>)
    ensures Clients([]) * ready == {}
  {
  }

  /** Nothing is left to serve when no client in the rest of the table is ready. */
  lemma {:induction false} NoneReady(slots: seq<int>, ready: set<int>)
    requires |Clients(slots) * ready| == 0 && Distinct(slots)
    ensures ReadyOf(slots, ready) == []
    ensures forall i | 0 <= i < |slots| && slots[i] in ready :: slots[i] == EMPTY
  {
    hide Clients;
    if |slots| > 0 {
      Head(slots, ready);
      assert |ReadyOne(slots[0], ready)| == 0;
      NoneReady(slots[1..], ready);
    }
  }

  /** The table is full exactly when it holds as many clients as it has slots. */
  lemma {:induction false} FullTable(slots: seq<int>)
    requires Distinct(slots)
    ensures |Clients(slots)| <= |slots|
    ensures |Clients(slots)| == |slots| <==> EMPTY !in slots
  {
    if |slots| > 0 {
      FullTable(slots[1..]);
      assert slots == [slots[0]] + slots[1..];
      if slots[0] == EMPTY {
        assert Clients(slots) == Clients(slots[1..]);
      } else {
        assert slots[0] !in slots[1..];
        assert Clients(slots) == Clients(slots[1..]) + {slots[0]};
      }
    }
  }

  /** The first free slot has been given to conn, the others are as they were. */
  ghost predicate InFirstFree(slots: seq<int>, slots': seq<int>, conn: int) {
    exists i :: 0 <= i < |slots| && slots[i] == -1 && slots' == slots[i := conn]
                && forall j | 0 <= j < i :: slots[j] != -1
  }

  /** A new client in a free slot */
  lemma Added(slots: seq<int>, i: int, conn: int)
    requires 0 <= i < |slots| && slots[i] == EMPTY && Distinct(slots) && conn != EMPTY && conn !in slots
    ensures Distinct(slots[i := conn]) && Clients(slots[i := conn]) == Clients(slots) + {conn}
  {
    var now := slots[i := conn];
    forall x ensures x in Clients(now) <==> x in Clients(slots) + {conn} {
      if x in Clients(slots) {
        var k :| 0 <= k < |slots| && slots[k] == x;
        assert now[k] == x;
      }
      assert now[i] == conn;
    }
  }

  lemma Removed(slots: seq<int>, gone: set<int>)
    requires Distinct(slots)
    ensures Distinct(Cleared(slots, gone)) && Clients(Cleared(slots, gone)) == Clients(slots) - gone
  {
    var now := Cleared(slots, gone);
    forall x ensures x in Clients(now) <==> x in Clients(slots) - gone {
      if x in Clients(slots) - gone {
        var k :| 0 <= k < |slots| && slots[k] == x;
        assert now[k] == x;
      }
    }
  }

  ghost predicate TableOk(sockT: int, sockU: int, slots: seq<int>, allset: set<int>, max: int) {
    && sockT != sockU && sockT >= 0 && sockU >= 0
    && Distinct(slots) && sockT !in slots && sockU !in slots
    && allset == {sockT, sockU} + Clients(slots)
    && (forall fd | fd in allset :: 0 <= fd < max)
  }

  lemma AddedOk(sockT: int, sockU: int, slots: seq<int>, slots': seq<int>, allset: set<int>, max: int, conn: int)
    requires TableOk(sockT, sockU, slots, allset, max) && conn >= 0 && conn !in allset
    requires Distinct(slots') && Clients(slots') == Clients(slots) + {conn}
    ensures TableOk(sockT, sockU, slots', allset + {conn}, if conn + 1 > max then conn + 1 else max)
  {
    assert sockT !in Clients(slots') && sockU !in Clients(slots');
  }

  lemma Newcomer(sockT: int, sockU: int, slots: seq<int>, allset: set<int>, max: int, conn: int)
    requires TableOk(sockT, sockU, slots, allset, max) && conn >= 0 && conn !in allset
    ensures Distinct(slots) && conn !in slots
  {
  }

  lemma ServedOk(sockT: int, sockU: int, slots: seq<int>, allset: set<int>, max: int, gone: set<int>)
    requires TableOk(sockT, sockU, slots, allset, max)
    ensures TableOk(sockT, sockU, Cleared(slots, gone), allset - Clients(slots) * gone, max)
    ensures Clients(Cleared(slots, gone)) == Clients(slots) - gone
  {
    Removed(slots, gone);
  }

  // ---------- the server ----------

  class Server {
    const sockT: int
    const sockU: int
    const slots: array<int>
    var allset: set<int>
    var max: int

    /** The monitored set is the two sockets and the clients, the clients are different,
        and max is above all of them. */
    ghost predicate Valid()
      reads this, slots
    {
      TableOk(sockT, sockU, slots[..], allset, max)
    }

    ghost function Connected(): set<int>
      reads slots
    {
      Clients(slots[..])
    }

    constructor (sockT: int, sockU: int, size: nat)
      requires sockT != sockU && sockT >= 0 && sockU >= 0
      ensures Valid() && fresh(slots) && slots.Length == size && Connected() == {}
      ensures this.sockT == sockT && this.sockU == sockU
    {
      this.sockT, this.sockU := sockT, sockU;
      slots := new int[size](_ => EMPTY);
      allset := {sockT, sockU};
      max := if sockT > sockU then sockT + 1 else sockU + 1;
    }

    /** add_client: the first free slot */
    method AddClient(conn: int) returns (ok: bool)
      requires conn != EMPTY && Distinct(slots[..]) && conn !in slots[..]
      modifies slots
      ensures ok <==> |old(Connected())| < slots.Length
      ensures ok ==> InFirstFree(old(slots[..]), slots[..], conn)
      ensures Distinct(slots[..]) && Connected() == old(Connected()) + if ok then {conn} else {}
      ensures !ok ==> slots[..] == old(slots[..])
    {
      FullTable(slots[..]);
      for i := 0 to slots.Length
        invariant slots[..] == old(slots[..]) && EMPTY !in slots[..i]
      {
        if slots[i] == EMPTY {
          Added(slots[..], i, conn);
          assert EMPTY in slots[..];
          assert forall j | 0 <= j < i :: slots[..][j] == slots[..i][j];
          slots[i] := conn;
          assert slots[..] == old(slots[..])[i := conn];
          assert InFirstFree(old(slots[..]), slots[..], conn);
          return true;
        }
      }
      assert slots[..slots.Length] == slots[..];
      ok := false;
    }

    /** The scan of the table.  Its loop has no bound on j: it is the number of ready
        clients not yet met, left, that keeps j inside the table. */
    method ServeClients(ready: set<int>, closed: set<int>, count: int) returns (served: seq<int>)
      requires Distinct(slots[..]) && count == |Connected() * ready|
      modifies this`allset, slots
      ensures served == ReadyOf(old(slots[..]), ready)
      ensures slots[..] == Cleared(old(slots[..]), ready * closed)
      ensures allset == old(allset) - old(Connected()) * (ready * closed)
    {
      hide Clients, Distinct, Unmet, Closed, ReadyOf;
      ghost var was := slots[..];
      ghost var gone := ready * closed;
      served := [];
      var left, j := count, 0;
      ScanStart(was, ready, gone);
      while left > 0
        invariant 0 <= j <= |was| == slots.Length && left == Unmet(was, j, ready)
        invariant served + ReadyOf(was[j..], ready) == ReadyOf(was, ready)
        invariant forall i | 0 <= i < |was| :: slots[i] == if i < j && was[i] in gone then EMPTY else was[i]
        invariant allset == old(allset) - Closed(was, j, gone)
        decreases |was| - j
      {
        ScanNext(was, j, ready, gone);
        if slots[j] != EMPTY && slots[j] in ready {
          served := served + [slots[j]];
          left := left - 1;
          if slots[j] in closed {
            allset := allset - {slots[j]};
            slots[j] := EMPTY;
          }
        }
        j := j + 1;
      }
      ScanEnd(was, j, ready, gone);
      assert slots[..] == Cleared(was, gone);
    }

    /** handleNewConn, and the new client put under watch */
    method HandleNewConn(accepted: int) returns (conn: int)
      requires Valid() && (accepted == EMPTY || (accepted >= 0 && accepted !in allset))
      modifies this`allset, this`max, slots
      ensures Valid() && conn == if accepted != -1 && |old(Connected())| < slots.Length then accepted else -1
      ensures Connected() == old(Connected()) + if conn != -1 then {conn} else {}
    {
      hide TableOk, Clients, Distinct, InFirstFree;
      conn := EMPTY;
      if accepted != EMPTY {
        ghost var was := slots[..];
        Newcomer(sockT, sockU, was, allset, max, accepted);
        var added := AddClient(accepted);
        if added {
          conn := accepted;
          AddedOk(sockT, sockU, was, slots[..], allset, max, conn);
          allset := allset + {conn};
          if conn + 1 > max {
            max := conn + 1;
          }
        }
      }
    }

    /** The listening sockets' part of a round: a datagram to read, a client to accept */
    method Listen(round: Round) returns (left: int)
      requires Valid() && Possible(Connected(), sockT, sockU, round)
      modifies this`allset, this`max, slots
      ensures Valid() && left == |old(Connected()) * round.ready|
      ensures Connected() ==
              old(Connected()) + if sockT in round.ready && round.conn != -1 && |old(Connected())| < slots.Length
                                 then {round.conn} else {}
    {
      Remaining(round.ready, sockT, sockU, Connected());
      left := |round.ready|;
      if sockU in round.ready {
        left := left - 1;
      }
      if sockT in round.ready {
        var conn := HandleNewConn(round.conn);
        left := left - 1;
      }
    }

    /** The clients' part of a round, when there are ready ones left */
    method ServeRound(round: Round, left: int) returns (served: seq<int>)
      requires Valid() && left == |Connected() * round.ready|
      modifies this`allset, slots
      ensures Valid() && Connected() == old(Connected()) - round.ready * round.closed
      ensures multiset(served) == multiset(old(Connected()) * round.ready)
    {
      ghost var was := slots[..];
      EachOnce(was, round.ready);
      ServedOk(sockT, sockU, was, allset, max, round.ready * round.closed);
      assert Distinct(was);
      hide TableOk, Clients, Distinct;
      served := ServeClients(round.ready, round.closed, left);
    }

    /** One round of the main loop: it keeps the server valid, treats the clients as the
        bounded set says, and serves each ready client once, in the order of the table. */
    method Handle(round: Round) returns (served: seq<int>)
      requires Valid() && Possible(Connected(), sockT, sockU, round)
      modifies this`allset, this`max, slots
      ensures Valid()
      ensures Connected() == NextClients(old(Connected()), slots.Length, sockT, round)
      ensures Connected() == old(Connected()) - round.ready * round.closed +
                             if sockT in round.ready && round.conn != -1 && |old(Connected())| < slots.Length
                             then {round.conn} else {}
      ensures multiset(served) == multiset(old(Connected()) * round.ready)
    {
      NextClientsIs(Connected(), slots.Length, sockT, round);
      hide NextClients, Accepted, Clients, Server.Valid;
      served := [];
      ghost var before := Connected();
      if |round.ready| == 0 {
        NothingReady(before, slots.Length, sockT, round);
        Nobody(before * round.ready);
        return;
      }
      NewIsNew(round);
      var left := Listen(round);
      RoundEffect(before, Connected(), slots.Length, sockT, round);
      if left == 0 {
        Nobody(before * round.ready);
        return;
      }
      served := ServeRound(round, left);
    }

    lemma NewIsNew(round: Round)
      requires Valid() && Possible(Connected(), sockT, sockU, round)
      ensures round.conn !in round.ready
    {
    }

    /** A round that cannot happen is left out. */
    method Attempt(round: Round) returns (served: seq<int>)
      requires Valid()
      modifies this`allset, this`max, slots
      ensures Valid() && Connected() == After(old(Connected()), slots.Length, sockT, sockU, round)
      ensures Served(old(Connected()), sockT, sockU, round, served)
    {
      served := [];
      if round.ready <= allset && (round.conn == EMPTY || (round.conn >= 0 && round.conn !in allset)) {
        served := Handle(round);
      }
    }

    /** Any sequence of rounds: the clients at the end are those of the bounded set, and
        each round has served its ready clients, once each. */
    method Run(rounds: seq<Round>) returns (log: seq<seq<int>>)
      requires Valid()
      modifies this`allset, this`max, slots
      ensures Valid()
      ensures Connected() == RunClients(old(Connected()), slots.Length, sockT, sockU, rounds)
      ensures |log| == |rounds|
      ensures forall n | 0 <= n < |log| ::
                Served(RunClients(old(Connected()), slots.Length, sockT, sockU, rounds[..n]),
                       sockT, sockU, rounds[n], log[n])
      ensures forall n | 0 <= n < |log| ::
                var clients := RunClients(old(Connected()), slots.Length, sockT, sockU, rounds[..n]);
                Possible(clients, sockT, sockU, rounds[n]) ==>
                  multiset(log[n]) == multiset(clients * rounds[n].ready)
    {
      hide After, Valid, Connected, Served;
      log := [];
      for n := 0 to |rounds|
        invariant Valid() && |log| == n
        invariant Connected() == RunClients(old(Connected()), slots.Length, sockT, sockU, rounds[..n])
        invariant forall m | 0 <= m < n ::
                    Served(RunClients(old(Connected()), slots.Length, sockT, sockU, rounds[..m]),
                           sockT, sockU, rounds[m], log[m])
      {
        assert rounds[..n + 1][..n] == rounds[..n];
        var served := Attempt(rounds[n]);
        log := log + [served];
      }
      assert rounds[..|rounds|] == rounds;
      ServedEach(old(Connected()), slots.Length, sockT, sockU, rounds, log);
    }
  }

  lemma ServedEach(start: set<int>, size: nat, sockT: int, sockU: int, rounds: seq<Round>, log: seq<seq<int>>)
    requires |log| == |rounds|
    requires forall n | 0 <= n < |log| ::
               Served(RunClients(start, size, sockT, sockU, rounds[..n]), sockT, sockU, rounds[n], log[n])
    ensures forall n | 0 <= n < |log| ::
              var clients := RunClients(start, size, sockT, sockU, rounds[..n]);
              Possible(clients, sockT, sockU, rounds[n]) ==> multiset(log[n]) == multiset(clients * rounds[n].ready)
  {
    hide RunClients, Possible;
  }

  function After(clients: set<int>, size: nat, sockT: int, sockU: int, round: Round): set<int> {
    if Possible(clients, sockT, sockU, round) then NextClients(clients, size, sockT, round) else clients
  }

  /** The ready clients were served, once each, and nobody else. */
  predicate Served(clients: set<int>, sockT: int, sockU: int, round: Round, served: seq<int>) {
    if Possible(clients, sockT, sockU, round) then multiset(served) == multiset(clients * round.ready) else served == []
  }

  function RunClients(clients: set<int>, size: nat, sockT: int, sockU: int, rounds: seq<Round>): set<int> {
    if |rounds| == 0 then clients
    else
      var before := RunClients(clients, size, sockT, sockU, rounds[..|rounds| - 1]);
      After(before, size, sockT, sockU, rounds[|rounds| - 1])
  }

  /** The clients round by round; a round that cannot happen changes nothing. */
  lemma RunClientsIs(clients: set<int>, size: nat, sockT: int, sockU: int, rounds: seq<Round>, n: nat)
    requires n < |rounds|
    ensures RunClients(clients, size, sockT, sockU, []) == clients
    ensures var now, next := RunClients(clients, size, sockT, sockU, rounds[..n]),
                             RunClients(clients, size, sockT, sockU, rounds[..n + 1]);
            var watched, round := {sockT, sockU} + now, rounds[n];
            next == if round.ready <= watched && (round.conn == -1 || (round.conn >= 0 && round.conn !in watched))
                    then now - round.ready * round.closed +
                         if sockT in round.ready && round.conn != -1 && |now| < size then {round.conn} else {}
                    else now
  {
    assert rounds[..n + 1][..n] == rounds[..n];
    NextClientsIs(RunClients(clients, size, sockT, sockU, rounds[..n]), size, sockT, rounds[n]);
  }

  /** What is left of the ready descriptors after the listening sockets: ready clients */
  lemma Remaining(ready: set<int>, sockT: int, sockU: int, clients: set<int>)
    requires sockT != sockU && sockT !in clients && sockU !in clients && ready <= {sockT, sockU} + clients
    ensures |ready| == |clients * ready| + (if sockT in ready then 1 else 0) + (if sockU in ready then 1 else 0)
  {
    var t, u := if sockT in ready then {sockT} else {}, if sockU in ready then {sockU} else {};
    assert ready == clients * ready + t + u;
  }
}
