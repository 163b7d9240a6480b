/**
 * The online registry `online_clients`: a Python dict from user name to the connection's
 * socket, which keeps insertion order. It is modelled as a list of entries with distinct
 * names; deleting a key keeps the order of the others, adding one appends it.
 * Also the delivery rule of `broadcast` as a function of the outboxes.
 */
module Presence {
  import opened Wrappers

  /** Connections are numbered in the order they were accepted. */
  type ConnId = nat

  datatype Entry = Entry(name: string, conn: ConnId)

  /**
   * A connection's life: its handler loop runs (Active), the loop has ended but the
   * `finally` cleanup has not yet run (Ending), or the socket is closed (Closed).
   */
  datatype Phase = Active | Ending | Closed

  /** `online_clients.keys()`, in insertion order. */
  function Names(es: seq<Entry>): (r: seq<string>)
    ensures |r| == |es|
    ensures forall i :: 0 <= i < |es| ==> r[i] == es[i].name
  {
    if es == [] then [] else [es[0].name] + Names(es[1..])
  }

  predicate DistinctNames(es: seq<Entry>) {
    forall i, j :: 0 <= i < j < |es| ==> es[i].name != es[j].name
  }

  /** `name in online_clients`. */
  predicate IsOnline(es: seq<Entry>, name: string) {
    exists i :: 0 <= i < |es| && es[i].name == name
  }

  /** `online_clients[name]` when present. */
  function Lookup(es: seq<Entry>, name: string): (r: Option<ConnId>)
    ensures r.Some? <==> IsOnline(es, name)
    ensures r.Some? ==> Entry(name, r.value) in es
    ensures DistinctNames(es) ==> forall e <- es :: e.name == name ==> r == Some(e.conn)
  {
    if es == [] then None
    else if es[0].name == name then Some(es[0].conn)
    else
      var r := Lookup(es[1..], name);
      assert forall i :: 1 <= i < |es| ==> es[i] == es[1..][i - 1];
      assert IsOnline(es[1..], name) ==> IsOnline(es, name);
      r
  }

  /** `del online_clients[name]`: every other entry stays, in its order. */
  function Without(es: seq<Entry>, name: string): (r: seq<Entry>)
    ensures forall e <- r :: e in es && e.name != name
    ensures forall e <- es :: e.name != name ==> e in r
    ensures |r| <= |es|
  {
    if es == [] then []
    else if es[0].name == name then Without(es[1..], name)
    else [es[0]] + Without(es[1..], name)
  }

  /** Deletion works entry by entry, so the kept entries stay in their order. */
  lemma {:induction false} WithoutConcat(a: seq<Entry>, b: seq<Entry>, name: string)
    ensures Without(a + b, name) == Without(a, name) + Without(b, name)
    decreases |a|
  {
    if a != [] {
      assert (a + b)[0] == a[0];
      assert (a + b)[1..] == a[1..] + b;
      WithoutConcat(a[1..], b, name);
    } else {
      assert a + b == b;
    }
  }

  /** Removing a name keeps the other names distinct and in order (as a subsequence). */
  lemma {:induction false} WithoutDistinct(es: seq<Entry>, name: string)
    requires DistinctNames(es)
    ensures DistinctNames(Without(es, name))
    ensures !IsOnline(Without(es, name), name)
    ensures IsOnline(es, name) ==> |Without(es, name)| == |es| - 1
    ensures !IsOnline(es, name) ==> Without(es, name) == es
    decreases |es|
  {
    if es != [] {
      var tail := es[1..];
      assert DistinctNames(tail) by {
        forall i, j | 0 <= i < j < |tail| ensures tail[i].name != tail[j].name {
          assert tail[i] == es[i + 1] && tail[j] == es[j + 1];
        }
      }
      WithoutDistinct(tail, name);
      assert forall i :: 0 <= i < |tail| ==> tail[i] == es[i + 1];
      var r := Without(es, name);
      if es[0].name == name {
        assert !IsOnline(tail, name);
      } else {
        assert r == [es[0]] + Without(tail, name);
        assert IsOnline(es, name) ==> IsOnline(tail, name);
        forall i, j | 0 <= i < j < |r| ensures r[i].name != r[j].name {
          if i == 0 {
            assert r[j] in tail;
          }
        }
      }
    }
  }

  /** Adding an absent name keeps the names distinct (a dict insert of a new key). */
  lemma AppendDistinct(es: seq<Entry>, e: Entry)
    requires DistinctNames(es) && !IsOnline(es, e.name)
    ensures DistinctNames(es + [e])
  {
    var r := es + [e];
    forall i, j | 0 <= i < j < |r| ensures r[i].name != r[j].name {
      if j == |es| {
        assert r[i] == es[i];
      }
    }
  }

  // ---------------------------------------------------------------------------
  // broadcast

  /** Whether `broadcast` reaches entry `e`: not the excluded name, and the socket still open. */
  predicate Reaches(e: Entry, phase: seq<Phase>, exclude: Option<string>)
    requires e.conn < |phase|
  {
    exclude != Some(e.name) && phase[e.conn] != Closed
  }

  predicate ConnsIn(es: seq<Entry>, n: nat) {
    forall e <- es :: e.conn < n
  }

  /**
   * The outboxes after `broadcast(msg, exclude)` walked the entries `es` in order: a socket
   * gets the message once per entry of it that is reached; a send to a closed socket raises
   * and is swallowed, so it delivers nothing.
   */
  function Fanout(outbox: seq<seq<string>>, phase: seq<Phase>, es: seq<Entry>, msg: string, exclude: Option<string>): (r: seq<seq<string>>)
    requires |phase| == |outbox| && ConnsIn(es, |outbox|)
    ensures |r| == |outbox|
    decreases |es|
  {
    if es == [] then outbox
    else
      var prev := Fanout(outbox, phase, es[..|es| - 1], msg, exclude);
      var e := es[|es| - 1];
      if Reaches(e, phase, exclude) then prev[e.conn := prev[e.conn] + [msg]] else prev
  }

  /** A broadcast only appends: every socket's earlier output is a prefix of its new output. */
  lemma {:induction false} FanoutExtends(outbox: seq<seq<string>>, phase: seq<Phase>, es: seq<Entry>, msg: string, exclude: Option<string>)
    requires |phase| == |outbox| && ConnsIn(es, |outbox|)
    ensures forall k :: 0 <= k < |outbox| ==> outbox[k] <= Fanout(outbox, phase, es, msg, exclude)[k]
    decreases |es|
  {
    if es != [] {
      FanoutExtends(outbox, phase, es[..|es| - 1], msg, exclude);
    }
  }

  /** A broadcast depends on the phases only through which sockets are closed. */
  lemma {:induction false} FanoutClosedOnly(outbox: seq<seq<string>>, phase: seq<Phase>, phase': seq<Phase>, es: seq<Entry>, msg: string, exclude: Option<string>)
    requires |phase| == |outbox| && |phase'| == |outbox| && ConnsIn(es, |outbox|)
    requires forall k :: 0 <= k < |phase| ==> (phase[k] == Closed <==> phase'[k] == Closed)
    ensures Fanout(outbox, phase, es, msg, exclude) == Fanout(outbox, phase', es, msg, exclude)
    decreases |es|
  {
    if es != [] {
      FanoutClosedOnly(outbox, phase, phase', es[..|es| - 1], msg, exclude);
    }
  }

  /** How many entries of `es` the broadcast delivers to socket `k`. */
  function Copies(es: seq<Entry>, phase: seq<Phase>, k: ConnId, exclude: Option<string>): nat
    requires ConnsIn(es, |phase|)
    decreases |es|
  {
    if es == [] then 0
    else
      var e := es[|es| - 1];
      Copies(es[..|es| - 1], phase, k, exclude) + if e.conn == k && Reaches(e, phase, exclude) then 1 else 0
  }

  function Repeat(msg: string, n: nat): (r: seq<string>)
    ensures |r| == n && forall i :: 0 <= i < n ==> r[i] == msg
  {
    if n == 0 then [] else Repeat(msg, n - 1) + [msg]
  }

  /** What a broadcast does to one socket: appends the message once per entry of it that is reached, and nothing else. */
  lemma {:induction false} FanoutAt(outbox: seq<seq<string>>, phase: seq<Phase>, es: seq<Entry>, msg: string, exclude: Option<string>, k: ConnId)
    requires |phase| == |outbox| && ConnsIn(es, |outbox|) && k < |outbox|
    ensures Fanout(outbox, phase, es, msg, exclude)[k] == outbox[k] + Repeat(msg, Copies(es, phase, k, exclude))
    decreases |es|
  {
    if es != [] {
      FanoutAt(outbox, phase, es[..|es| - 1], msg, exclude, k);
    }
  }

  /** No reached entry of socket `k`: it gets nothing. */
  lemma {:induction false} CopiesNone(es: seq<Entry>, phase: seq<Phase>, k: ConnId, exclude: Option<string>)
    requires ConnsIn(es, |phase|)
    requires forall e <- es :: e.conn == k ==> !Reaches(e, phase, exclude)
    ensures Copies(es, phase, k, exclude) == 0
    decreases |es|
  {
    if es != [] {
      CopiesNone(es[..|es| - 1], phase, k, exclude);
    }
  }

  /** Exactly one entry of socket `k`, and it is reached: it gets the message once. */
  lemma {:induction false} CopiesOne(es: seq<Entry>, phase: seq<Phase>, k: ConnId, exclude: Option<string>, i: nat)
    requires ConnsIn(es, |phase|)
    requires i < |es| && es[i].conn == k && Reaches(es[i], phase, exclude)
    requires forall j :: 0 <= j < |es| && j != i ==> es[j].conn != k
    ensures Copies(es, phase, k, exclude) == 1
    decreases |es|
  {
    var init := es[..|es| - 1];
    if i == |es| - 1 {
      CopiesNone(init, phase, k, exclude);
    } else {
      CopiesOne(init, phase, k, exclude, i);
    }
  }

  /**
   * The usual case of `broadcast`: when a socket belongs to one entry only, it receives the
   * message exactly once if that entry is reached and not at all otherwise.
   */
  lemma FanoutOnce(outbox: seq<seq<string>>, phase: seq<Phase>, es: seq<Entry>, msg: string, exclude: Option<string>, k: ConnId)
    requires |phase| == |outbox| && ConnsIn(es, |outbox|) && k < |outbox|
    requires forall i, j :: 0 <= i < j < |es| && es[i].conn == k ==> es[j].conn != k
    ensures Fanout(outbox, phase, es, msg, exclude)[k] ==
      if exists e <- es :: e.conn == k && Reaches(e, phase, exclude) then outbox[k] + [msg] else outbox[k]
  {
    FanoutAt(outbox, phase, es, msg, exclude, k);
    if i :| 0 <= i < |es| && es[i].conn == k && Reaches(es[i], phase, exclude) {
      CopiesOne(es, phase, k, exclude, i);
    } else {
      CopiesNone(es, phase, k, exclude);
      assert outbox[k] + [] == outbox[k];
    }
  }
}
