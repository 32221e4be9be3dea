/** The table of running hearts, over any kind of stop channel: Launch, Stop and Close as steps on a value. */
module HeartTable {
  import opened Ids

  /**
   `hearts` is the map of the heart beater; `owner` records every channel ever created and its user; `closed` are the
   closed ones.
   */
  datatype Table<C(==)> = Table(hearts: map<ID, C>, owner: map<C, ID>, closed: set<C>)

  function Launch<C>(t: Table<C>, u: ID, c: C): Table<C> {
    t.(hearts := t.hearts[u := c], owner := t.owner[c := u])
  }

  function Stop<C>(t: Table<C>, u: ID): Table<C>
    requires u in t.hearts
  {
    t.(hearts := t.hearts - {u}, closed := t.closed + {t.hearts[u]})
  }

  function StopAll<C>(t: Table<C>): Table<C> {
    Table(map[], t.owner, t.closed + t.hearts.Values)
  }

  /** A channel is open exactly while it is the entry of the user it was created for. */
  ghost predicate TableInv<C(!new)>(t: Table<C>) {
    && (forall u :: u in t.hearts ==> t.hearts[u] in t.owner && t.owner[t.hearts[u]] == u)
    && (forall c :: c in t.closed ==> c in t.owner)
    && (forall c :: c in t.owner ==> (c !in t.closed <==> t.owner[c] in t.hearts && t.hearts[t.owner[c]] == c))
  }

  lemma LaunchKeepsInv<C(!new)>(t: Table<C>, u: ID, c: C)
    requires TableInv(t) && u !in t.hearts && c !in t.owner
    ensures TableInv(Launch(t, u, c))
  {
  }

  lemma StopKeepsInv<C(!new)>(t: Table<C>, u: ID)
    requires TableInv(t) && u in t.hearts
    ensures TableInv(Stop(t, u))
  {
  }

  lemma StopAllKeepsInv<C(!new)>(t: Table<C>)
    requires TableInv(t)
    ensures TableInv(StopAll(t))
  {
  }

  datatype Op<C> = LaunchOp(user: ID, ch: C) | StopOp(user: ID) | CloseOp

  /** One call: a launch for a user who has a heart and a stop for one who has none fail and change nothing. */
  function Do<C>(t: Table<C>, op: Op<C>): Table<C> {
    match op
    case LaunchOp(u, c) => if u in t.hearts then t else Launch(t, u, c)
    case StopOp(u) => if u !in t.hearts then t else Stop(t, u)
    case CloseOp => StopAll(t)
  }

  function EmptyTable<C>(): Table<C> {
    Table(map[], map[], {})
  }

  function Run<C>(ops: seq<Op<C>>): Table<C> {
    if ops == [] then EmptyTable() else Do(Run(ops[..|ops| - 1]), ops[|ops| - 1])
  }

  /** Whether a call executes close on the channel. */
  predicate Closes<C(==)>(t: Table<C>, op: Op<C>, c: C) {
    match op
    case LaunchOp(_, _) => false
    case StopOp(u) => u in t.hearts && t.hearts[u] == c
    case CloseOp => c in t.hearts.Values
  }

  function CloseCount<C(==)>(ops: seq<Op<C>>, c: C): nat {
    if ops == [] then 0
    else
      var before := ops[..|ops| - 1];
      CloseCount(before, c) + if Closes(Run(before), ops[|ops| - 1], c) then 1 else 0
  }

  /** Every launch makes a new channel. */
  ghost predicate FreshChannels<C>(ops: seq<Op<C>>) {
    forall i :: 0 <= i < |ops| && ops[i].LaunchOp? ==> ops[i].ch !in Run(ops[..i]).owner
  }

  /**
   Over every sequence of calls: the table invariant holds, and a channel is closed once if it is closed and never
   otherwise.
   */
  lemma {:induction false} TableOverRuns<C(!new)>(ops: seq<Op<C>>, c: C)
    requires FreshChannels(ops)
    ensures TableInv(Run(ops))
    ensures CloseCount(ops, c) == if c in Run(ops).closed then 1 else 0
  {
    if ops != [] {
      var n := |ops| - 1;
      var before := ops[..n];
      assert forall i :: 0 <= i < n ==> before[..i] == ops[..i];
      TableOverRuns(before, c);
    }
  }

  /** A user has at most one open channel. */
  lemma OneOpenHeart<C(!new)>(ops: seq<Op<C>>, c: C, d: C)
    requires FreshChannels(ops)
    requires c in Run(ops).owner && d in Run(ops).owner && Run(ops).owner[c] == Run(ops).owner[d]
    requires c !in Run(ops).closed && d !in Run(ops).closed
    ensures c == d
  {
    TableOverRuns(ops, c);
  }
}
