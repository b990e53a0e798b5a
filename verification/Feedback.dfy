/** A server that counts feedback messages over the last minute and the last five, and
    prunes its history in place. */
module Feedback {
  import opened Common

  datatype Message = Message(kind: char, stamp: int)

  datatype Counters = Counters(total: int, last5: int, last1: int)

  /** One turn of the main loop: a message if one came, the clock when the history is
      pruned and the clock when the counters are refreshed */
  datatype Turn = Turn(msg: Option<Message>, pruneAt: int, refreshAt: int)

  function Index(kind: char): (i: int)
    ensures -1 <= i < 6
  {
    match kind
    case 'A' => 0
    case 'R' => 1
    case 'I' => 2
    case 'N' => 3
    case 'C' => 4
    case 'B' => 5
    case _ => -1
  }

  // ---------- what the counters mean ----------

  /** The messages that are not older than limit, in order */
  function Recent(s: seq<Message>, limit: int): (r: seq<Message>)
    ensures |r| <= |s|
  {
    if |s| == 0 then []
    else Recent(s[..|s| - 1], limit) + if s[|s| - 1].stamp >= limit then [s[|s| - 1]] else []
  }

  /** How many messages of category k are not older than limit */
  function Count(s: seq<Message>, k: int, limit: int): nat {
    if |s| == 0 then 0
    else Count(s[..|s| - 1], k, limit) + if Index(s[|s| - 1].kind) == k && s[|s| - 1].stamp >= limit then 1 else 0
  }

  /** How many messages of category k there are */
  function Total(s: seq<Message>, k: int): nat {
    if |s| == 0 then 0 else Total(s[..|s| - 1], k) + if Index(s[|s| - 1].kind) == k then 1 else 0
  }

  /** Category k is the k-th of the letters A, R, I, N, C and B; no other letter has one. */
  lemma IndexIs(kind: char)
    ensures kind in "ARINCB" <==> Index(kind) >= 0
    ensures forall k | 0 <= k < 6 :: Index(kind) == k <==> kind == "ARINCB"[k]
  {
  }

  /** What the windows count, message by message */
  lemma {:induction false} CountUpTo(s: seq<Message>, n: nat, k: int, limit: int)
    requires 0 <= k < 6 && n <= |s|
    ensures Count(s[..n], k, limit) == |set i | 0 <= i < n && s[i].kind == "ARINCB"[k] && s[i].stamp >= limit|
  {
    if n > 0 {
      IndexIs(s[n - 1].kind);
      CountUpTo(s, n - 1, k, limit);
      assert s[..n][..n - 1] == s[..n - 1];
      OneIndex((set i | 0 <= i < n - 1 && s[i].kind == "ARINCB"[k] && s[i].stamp >= limit),
               (set i | 0 <= i < n && s[i].kind == "ARINCB"[k] && s[i].stamp >= limit), n - 1,
               s[n - 1].kind == "ARINCB"[k] && s[n - 1].stamp >= limit);
    }
  }

  lemma CountsAre(s: seq<Message>, limit: int)
    ensures forall k | 0 <= k < 6 ::
              Count(s, k, limit) == |set i | 0 <= i < |s| && s[i].kind == "ARINCB"[k] && s[i].stamp >= limit|
  {
    forall k | 0 <= k < 6
      ensures Count(s, k, limit) == |set i | 0 <= i < |s| && s[i].kind == "ARINCB"[k] && s[i].stamp >= limit|
    {
      CountUpTo(s, |s|, k, limit);
      assert s[..|s|] == s;
    }
  }

  lemma {:induction false} RecentAdd(s: seq<Message>, t: seq<Message>, limit: int)
    ensures Recent(s + t, limit) == Recent(s, limit) + Recent(t, limit)
  {
    if |t| == 0 {
      assert s + t == s;
    } else {
      RecentAdd(s, t[..|t| - 1], limit);
      assert (s + t)[..|s + t| - 1] == s + t[..|t| - 1];
    }
  }

  /** Pruning twice is pruning with the later limit. */
  lemma {:induction false} RecentTwice(s: seq<Message>, first: int, then': int)
    requires first <= then'
    ensures Recent(Recent(s, first), then') == Recent(s, then')
  {
    if |s| > 0 {
      var n := |s| - 1;
      RecentTwice(s[..n], first, then');
      RecentAdd(Recent(s[..n], first), if s[n].stamp >= first then [s[n]] else [], then');
    }
  }

  lemma RecentIsPart(s: seq<Message>, limit: int)
    ensures |Recent(s, limit)| <= |s|
  {
  }

  lemma RecentNone(limit: int)
    ensures Recent([], limit) == []
  {
  }

  lemma RecentNext(s: seq<Message>, n: nat, limit: int)
    requires n < |s|
    ensures Recent(s[..n + 1], limit) == Recent(s[..n], limit) + if s[n].stamp >= limit then [s[n]] else []
  {
    assert s[..n + 1][..n] == s[..n];
  }

  /** A count looks at the recent messages only. */
  lemma {:induction false} CountRecent(s: seq<Message>, k: int, limit: int)
    ensures Count(Recent(s, limit), k, limit) == Count(s, k, limit)
  {
    if |s| > 0 {
      var n := |s| - 1;
      CountRecent(s[..n], k, limit);
      if s[n].stamp >= limit {
        assert Recent(s, limit)[..|Recent(s, limit)| - 1] == Recent(s[..n], limit);
      } else {
        assert Recent(s, limit) == Recent(s[..n], limit);
      }
    }
  }

  /** kept stands for the whole history wherever only messages from floor on matter. */
  ghost predicate StandsFor(kept: seq<Message>, history: seq<Message>, floor: int) {
    forall limit | limit >= floor :: Recent(kept, limit) == Recent(history, limit)
  }

  lemma Prunes(kept: seq<Message>, history: seq<Message>, floor: int, limit: int)
    requires StandsFor(kept, history, floor) && floor <= limit
    ensures StandsFor(Recent(kept, limit), history, limit)
    ensures Recent(kept, limit) == Recent(history, limit)
  {
    forall later | later >= limit ensures Recent(Recent(kept, limit), later) == Recent(history, later) {
      RecentTwice(kept, limit, later);
    }
  }

  lemma Receives(kept: seq<Message>, history: seq<Message>, floor: int, msg: Message)
    requires StandsFor(kept, history, floor)
    ensures StandsFor(kept + [msg], history + [msg], floor)
  {
    forall limit | limit >= floor ensures Recent(kept + [msg], limit) == Recent(history + [msg], limit) {
      RecentAdd(kept, [msg], limit);
      RecentAdd(history, [msg], limit);
    }
  }

  lemma SameCounts(kept: seq<Message>, history: seq<Message>, floor: int, limit: int)
    requires StandsFor(kept, history, floor) && floor <= limit
    ensures forall k :: Count(kept, k, limit) == Count(history, k, limit)
  {
    forall k ensures Count(kept, k, limit) == Count(history, k, limit) {
      CountRecent(kept, k, limit);
      CountRecent(history, k, limit);
    }
  }

  // ---------- what a sequence of turns should give ----------

  predicate Counts(turn: Turn) {
    turn.msg.Some? && Index(turn.msg.value.kind) >= 0
  }

  /** The messages of a known category, in order */
  function Received(turns: seq<Turn>): seq<Message> {
    if |turns| == 0 then []
    else
      var last := turns[|turns| - 1];
      Received(turns[..|turns| - 1]) + if Counts(last) then [last.msg.value] else []
  }

  /** How many messages of the last five minutes there were when the last one came */
  function Load(turns: seq<Turn>): nat {
    if |turns| == 0 then 0
    else
      var last := turns[|turns| - 1];
      if Counts(last) then |Recent(Received(turns), last.pruneAt - 300)| else Load(turns[..|turns| - 1])
  }

  /** Whenever a message comes, the one before left room for it. */
  predicate Fits(turns: seq<Turn>, max: nat) {
    |turns| == 0 ||
    (Fits(turns[..|turns| - 1], max) && (Counts(turns[|turns| - 1]) ==> Load(turns[..|turns| - 1]) < max))
  }

  /** The totals, turn by turn: category k counts the messages with its letter. */
  lemma {:induction false} TotalUpTo(turns: seq<Turn>, m: nat, k: int)
    requires 0 <= k < 6 && m <= |turns|
    ensures Total(Received(turns[..m]), k) ==
            |set n | 0 <= n < m && turns[n].msg.Some? && turns[n].msg.value.kind == "ARINCB"[k]|
  {
    if m > 0 {
      SessionNext(turns, m - 1, 0);
      TotalUpTo(turns, m - 1, k);
      if turns[m - 1].msg.Some? {
        IndexIs(turns[m - 1].msg.value.kind);
      }
      hide Received, Total, Index;
      OneIndex((set n | 0 <= n < m - 1 && turns[n].msg.Some? && turns[n].msg.value.kind == "ARINCB"[k]),
               (set n | 0 <= n < m && turns[n].msg.Some? && turns[n].msg.value.kind == "ARINCB"[k]), m - 1,
               turns[m - 1].msg.Some? && turns[m - 1].msg.value.kind == "ARINCB"[k]);
    }
  }

  lemma TotalIs(turns: seq<Turn>, k: int)
    requires 0 <= k < 6
    ensures Total(Received(turns), k) ==
            |set n | 0 <= n < |turns| && turns[n].msg.Some? && turns[n].msg.value.kind == "ARINCB"[k]|
  {
    TotalUpTo(turns, |turns|, k);
    assert turns[..|turns|] == turns;
  }

  /** A message of a known letter that is not older than limit */
  predicate Late(turn: Turn, limit: int) {
    turn.msg.Some? && turn.msg.value.kind in "ARINCB" && turn.msg.value.stamp >= limit
  }

  /** The messages received that are not older than limit, turn by turn */
  lemma {:induction false} ReceivedUpTo(turns: seq<Turn>, m: nat, limit: int)
    requires m <= |turns|
    ensures |Recent(Received(turns[..m]), limit)| == |set n | 0 <= n < m && Late(turns[n], limit)|
  {
    if m > 0 {
      ReceivedUpTo(turns, m - 1, limit);
      ReceivedOne(turns, m - 1, limit);
      hide Late, Received, Recent;
      OneIndex((set n | 0 <= n < m - 1 && Late(turns[n], limit)), (set n | 0 <= n < m && Late(turns[n], limit)), m - 1,
               Late(turns[m - 1], limit));
    }
  }

  lemma ReceivedOne(turns: seq<Turn>, m: nat, limit: int)
    requires m < |turns|
    ensures |Recent(Received(turns[..m + 1]), limit)| ==
            |Recent(Received(turns[..m]), limit)| + if Late(turns[m], limit) then 1 else 0
  {
    var last := turns[m];
    SessionNext(turns, m, 0);
    RecentAdd(Received(turns[..m]), if Counts(last) then [last.msg.value] else [], limit);
    RecentNone(limit);
    if last.msg.Some? {
      IndexIs(last.msg.value.kind);
      RecentOne(last.msg.value, limit);
    }
    hide Received, Recent, Index;
  }

  lemma RecentOne(msg: Message, limit: int)
    ensures Recent([msg], limit) == if msg.stamp >= limit then [msg] else []
  {
    assert [msg][..0] == [];
  }

  /** Turn m is the last with a message of a known letter, or -1 if there is none. */
  ghost predicate Latest(turns: seq<Turn>, m: int) {
    && -1 <= m < |turns|
    && (m >= 0 ==> turns[m].msg.Some? && turns[m].msg.value.kind in "ARINCB")
    && forall n | m < n < |turns| && turns[n].msg.Some? :: turns[n].msg.value.kind !in "ARINCB"
  }

  /** The load after the last message: the messages up to it that were not older than five
      minutes then */
  lemma {:induction false} LoadIs(turns: seq<Turn>, m: int)
    requires Latest(turns, m)
    ensures Load(turns) == if m < 0 then 0 else |set n | 0 <= n <= m && Late(turns[n], turns[m].pruneAt - 300)|
    decreases |turns|
  {
    if |turns| > 0 {
      var last := |turns| - 1;
      if turns[last].msg.Some? {
        IndexIs(turns[last].msg.value.kind);
      }
      if m == last {
        ReceivedUpTo(turns, m + 1, turns[m].pruneAt - 300);
        assert turns[..m + 1] == turns;
        SameSet(turns, m, turns[m].pruneAt - 300);
      } else {
        assert Latest(turns[..last], m);
        LoadIs(turns[..last], m);
        if m >= 0 {
          SameTurns(turns, last, m);
        }
      }
    }
  }

  lemma SameSet(turns: seq<Turn>, m: nat, limit: int)
    requires m < |turns|
    ensures (set n | 0 <= n <= m && Late(turns[n], limit)) == (set n | 0 <= n < m + 1 && Late(turns[n], limit))
  {
    hide Late;
  }

  lemma SameTurns(turns: seq<Turn>, last: nat, m: nat)
    requires m < last <= |turns|
    ensures turns[..last][m].pruneAt == turns[m].pruneAt
    ensures (set n | 0 <= n <= m && Late(turns[..last][n], turns[m].pruneAt - 300)) ==
            (set n | 0 <= n <= m && Late(turns[n], turns[m].pruneAt - 300))
  {
    hide Late;
  }

  /** Nothing is dropped exactly when each message of a known letter comes while the load is
      below the number of places. */
  lemma {:induction false} FitsIs(turns: seq<Turn>, max: nat)
    ensures Fits(turns, max) <==>
              forall n | 0 <= n < |turns| && turns[n].msg.Some? && turns[n].msg.value.kind in "ARINCB" ::
                Load(turns[..n]) < max
  {
    if |turns| > 0 {
      var m := |turns| - 1;
      FitsIs(turns[..m], max);
      if turns[m].msg.Some? {
        IndexIs(turns[m].msg.value.kind);
      }
      forall n | 0 <= n <= m ensures turns[..m][..if n < m then n else m] == turns[..n] {
      }
    }
  }

  /** The clock does not go back. */
  predicate Forward(turns: seq<Turn>, start: int) {
    && (forall n | 0 <= n < |turns| :: start <= turns[n].pruneAt <= turns[n].refreshAt)
    && (forall m, n | 0 <= m < n < |turns| :: turns[m].refreshAt <= turns[n].pruneAt)
  }

  lemma SessionStart(max: nat)
    ensures Received([]) == [] && Load([]) == 0 && Fits([], max) && forall k :: Total([], k) == 0
  {
  }

  lemma SessionNext(turns: seq<Turn>, n: nat, max: nat)
    requires n < |turns|
    ensures Counts(turns[n]) <==> turns[n].msg.Some? && Index(turns[n].msg.value.kind) >= 0
    ensures Received(turns[..n + 1]) == Received(turns[..n]) + if Counts(turns[n]) then [turns[n].msg.value] else []
    ensures Fits(turns[..n + 1], max) <==> Fits(turns[..n], max) && (Counts(turns[n]) ==> Load(turns[..n]) < max)
    ensures Load(turns[..n + 1]) ==
            if Counts(turns[n]) then |Recent(Received(turns[..n + 1]), turns[n].pruneAt - 300)| else Load(turns[..n])
    ensures forall k :: Total(Received(turns[..n + 1]), k) == Total(Received(turns[..n]), k) +
                          if Counts(turns[n]) && Index(turns[n].msg.value.kind) == k then 1 else 0
  {
    assert turns[..n + 1][..n] == turns[..n];
    var before, now := Received(turns[..n]), Received(turns[..n + 1]);
    if Counts(turns[n]) {
      assert now[..|now| - 1] == before;
    } else {
      assert now == before;
    }
  }

  // ---------- the server ----------

  class Server {
    const messages: array<Message>
    const counters: array<Counters>
    var num: int

    /** Every message stored so far, pruned or not, and the limit of the last pruning */
    ghost var stored: seq<Message>
    ghost var floor: int

    ghost predicate Valid()
      reads this, messages
    {
      && counters.Length == 6 && 0 <= num <= messages.Length
      && StandsFor(messages[..num], stored, floor)
    }

    constructor (max: nat, start: int)
      ensures Valid() && fresh(messages) && fresh(counters) && messages.Length == max
      ensures num == 0 && stored == [] && floor == start - 300
      ensures forall k | 0 <= k < 6 :: counters[k] == Counters(0, 0, 0)
    {
      messages := new Message[max](_ => Message('A', 0));
      counters := new Counters[6](_ => Counters(0, 0, 0));
      num, stored, floor := 0, [], start - 300;
    }

    /** aggiorna_contatori: the windows are counted from the array, and equal those of
        everything ever stored. */
    method Refresh(now: int)
      requires Valid() && floor <= now - 300
      modifies counters
      ensures forall k | 0 <= k < 6 ::
                counters[k] == Counters(old(counters[k].total), Count(stored, k, now - 300), Count(stored, k, now - 60))
      ensures forall k | 0 <= k < 6 ::
                && counters[k].last5 ==
                   |set i | 0 <= i < |stored| && stored[i].kind == "ARINCB"[k] && stored[i].stamp >= now - 300|
                && counters[k].last1 ==
                   |set i | 0 <= i < |stored| && stored[i].kind == "ARINCB"[k] && stored[i].stamp >= now - 60|
    {
      var limit5, limit1 := now - 300, now - 60;
      for i := 0 to 6
        invariant forall k | 0 <= k < 6 ::
                    counters[k] == if k < i then Counters(old(counters[k].total), 0, 0) else old(counters[k])
      {
        counters[i] := counters[i].(last5 := 0, last1 := 0);
      }
      ghost var kept := messages[..num];
      for i := 0 to num
        invariant forall k | 0 <= k < 6 ::
                    counters[k] == Counters(old(counters[k].total),
                                            Count(kept[..i], k, limit5), Count(kept[..i], k, limit1))
      {
        assert kept[..i + 1][..i] == kept[..i] && kept[i] == messages[i];
        var idx := Index(messages[i].kind);
        if idx >= 0 {
          if messages[i].stamp >= limit5 {
            counters[idx] := counters[idx].(last5 := counters[idx].last5 + 1);
          }
          if messages[i].stamp >= limit1 {
            counters[idx] := counters[idx].(last1 := counters[idx].last1 + 1);
          }
        }
      }
      assert kept[..num] == kept;
      SameCounts(kept, stored, floor, limit5);
      SameCounts(kept, stored, floor, limit1);
      CountsAre(stored, limit5);
      CountsAre(stored, limit1);
    }

    /** pulisci_messaggi_vecchi: compacts the array in place, keeping the order. */
    method Prune(now: int)
      requires Valid() && floor <= now - 300
      modifies this`num, this`floor, messages
      ensures Valid() && floor == now - 300
      ensures messages[..num] == Recent(old(messages[..num]), now - 300)
      ensures num == |Recent(stored, now - 300)|
    {
      var limit := now - 300;
      ghost var was := messages[..];
      Prunes(was[..num], stored, floor, limit);
      hide StandsFor, Recent;
      assert was[..0] == [] && Recent([], limit) == [] by {
        RecentNone(limit);
      }
      var j := 0;
      for i := 0 to num
        invariant unchanged(`num) && unchanged(`floor)
        invariant 0 <= j <= i && messages[..j] == Recent(was[..i], limit)
        invariant forall k | i <= k < messages.Length :: messages[k] == was[k]
      {
        RecentNext(was, i, limit);
        if messages[i].stamp >= limit {
          messages[j] := messages[i];
          j := j + 1;
        }
      }
      num, floor := j, limit;
    }

    /** What main does with a message that has arrived: the total counts it in any case;
        it is stored exactly when the array has room. */
    method Receive(msg: Message, now: int)
      requires Valid() && floor <= now - 300
      modifies this, messages, counters
      ensures Valid() && floor <= now - 300
      ensures msg.kind !in "ARINCB" ==>
                unchanged(this) && messages[..] == old(messages[..]) && counters[..] == old(counters[..])
      ensures forall k | 0 <= k < 6 ::
                && counters[k].total == old(counters[k].total) + (if msg.kind == "ARINCB"[k] then 1 else 0)
                && counters[k].last5 == old(counters[k].last5) && counters[k].last1 == old(counters[k].last1)
      ensures Index(msg.kind) < 0 <==> msg.kind !in "ARINCB"
      ensures forall k | 0 <= k < 6 :: Index(msg.kind) == k <==> msg.kind == "ARINCB"[k]
      ensures msg.kind in "ARINCB" ==>
                && stored == (if old(num) < messages.Length then old(stored) + [msg] else old(stored))
                && (num == messages.Length <==> |Recent(stored, now - 300)| >= messages.Length)
    {
      hide Recent, StandsFor;
      IndexIs(msg.kind);
      var idx := Index(msg.kind);
      if idx < 0 {
        return;
      }
      counters[idx] := counters[idx].(total := counters[idx].total + 1);
      Keep(msg);
      RecentIsPart(messages[..num], now - 300);
      Prunes(messages[..num], stored, floor, now - 300);
      if num >= messages.Length - 100 {
        Prune(now);
      }
    }

    /** Store a message if there is room. */
    method Keep(msg: Message)
      requires Valid()
      modifies this`num, this`stored, messages
      ensures Valid()
      ensures stored == if old(num) < messages.Length then old(stored) + [msg] else old(stored)
    {
      if num < messages.Length {
        ghost var kept := messages[..num];
        Receives(kept, stored, floor, msg);
        hide StandsFor;
        messages[num] := msg;
        num := num + 1;
        stored := stored + [msg];
        assert messages[..num] == kept + [msg];
      }
    }

    /** One turn of the main loop */
    method Take(turn: Turn)
      requires Valid() && floor <= turn.pruneAt - 300 && turn.pruneAt <= turn.refreshAt
      modifies this, messages, counters
      ensures Valid() && floor <= turn.pruneAt - 300
      ensures stored == old(stored) + if Counts(turn) && old(num) < messages.Length then [turn.msg.value] else []
      ensures Counts(turn) ==> (num == messages.Length <==> |Recent(stored, turn.pruneAt - 300)| >= messages.Length)
      ensures !Counts(turn) ==> num == old(num)
      ensures forall k | 0 <= k < 6 ::
                counters[k] == Counters(old(counters[k].total) +
                                        if Counts(turn) && Index(turn.msg.value.kind) == k then 1 else 0,
                                        Count(stored, k, turn.refreshAt - 300), Count(stored, k, turn.refreshAt - 60))
    {
      hide StandsFor, Recent;
      if turn.msg.Some? {
        Receive(turn.msg.value, turn.pruneAt);
      }
      Refresh(turn.refreshAt);
    }

    /** A whole session.  The totals count every message of a known category.  The
        windows shown are those of the full history of what was stored, although the
        array has been pruned; and everything was stored exactly when Fits holds. */
    method Session(turns: seq<Turn>, start: int)
      requires Valid() && num == 0 && stored == [] && floor == start - 300 && Forward(turns, start)
      requires forall k | 0 <= k < 6 :: counters[k] == Counters(0, 0, 0)
      modifies this, messages, counters
      ensures Valid()
      ensures forall k | 0 <= k < 6 ::
                counters[k].total ==
                |set n | 0 <= n < |turns| && turns[n].msg.Some? && turns[n].msg.value.kind == "ARINCB"[k]|
      ensures |turns| > 0 ==> var now := turns[|turns| - 1].refreshAt; forall k | 0 <= k < 6 ::
                && counters[k].last5 ==
                   |set i | 0 <= i < |stored| && stored[i].kind == "ARINCB"[k] && stored[i].stamp >= now - 300|
                && counters[k].last1 ==
                   |set i | 0 <= i < |stored| && stored[i].kind == "ARINCB"[k] && stored[i].stamp >= now - 60|
      ensures stored == Received(turns) <==> Fits(turns, messages.Length)
    {
      hide Received, Load, Fits, StandsFor, Total, Counts;
      SessionStart(messages.Length);
      assert turns[..0] == [];
      for n := 0 to |turns|
        invariant Valid() && |stored| <= |Received(turns[..n])|
        invariant n < |turns| ==> floor <= turns[n].pruneAt - 300
        invariant forall k | 0 <= k < 6 :: counters[k].total == Total(Received(turns[..n]), k)
        invariant n > 0 ==> var now := turns[n - 1].refreshAt; forall k | 0 <= k < 6 ::
                    counters[k].last5 == Count(stored, k, now - 300) && counters[k].last1 == Count(stored, k, now - 60)
        invariant |stored| == |Received(turns[..n])| <==> Fits(turns[..n], messages.Length)
        invariant |stored| == |Received(turns[..n])| ==>
                    stored == Received(turns[..n]) && (num == messages.Length <==> Load(turns[..n]) >= messages.Length)
      {
        var turn := turns[n];
        SessionNext(turns, n, messages.Length);
        Take(turn);
      }
      assert turns[..|turns|] == turns;
      forall k | 0 <= k < 6 {
        TotalIs(turns, k);
      }
      if |turns| > 0 {
        CountsAre(stored, turns[|turns| - 1].refreshAt - 300);
        CountsAre(stored, turns[|turns| - 1].refreshAt - 60);
      }
    }
  }
}
