/**
 The persisted chain head: one row per chain, written by an upsert that only moves
 forward, from any number of producers.
 */
module HeadStore {
  import opened Results
  import opened Int64
  import opened Identifiers

  datatype Block = Block(number: nat, hash: string, time: int)

  datatype Row = Row(name: string, number: nat, hash: string, time: int)

  type Rows = map<int, Row>

  /** One SaveHead call: chain ID and block number are unsigned 64-bit values. */
  datatype Observation = Observation(chainID: nat, name: string, block: Block)

  /** The statement is refused for a malformed hash, or for a value that is negative or zero as a BIGINT. */
  predicate Acceptable(o: Observation)
  {
    ParseHash(o.block.hash).Some? && Wrap(o.chainID) > 0 && Wrap(o.block.number) >= 0
  }

  function ChainOf(o: Observation): int {
    Wrap(o.chainID)
  }

  function RowOf(o: Observation): Row
    requires Acceptable(o)
  {
    Row(o.name, Wrap(o.block.number), ParseHash(o.block.hash).value, o.block.time)
  }

  function SaveEffect(rows: Rows, o: Observation): Rows
  {
    if !Acceptable(o) then rows
    else if ChainOf(o) !in rows || RowOf(o).number > rows[ChainOf(o)].number then rows[ChainOf(o) := RowOf(o)]
    else rows
  }

  /** What LoadHead makes of the stored row. */
  function Loaded(rows: Rows, chainID: nat): Option<Block>
  {
    var chain := Wrap(chainID);
    if chain !in rows then None else Some(Block(rows[chain].number, rows[chain].hash, rows[chain].time))
  }

  class SyncStateRepo {
    var rows: Rows

    constructor ()
      ensures rows == map[]
    {
      rows := map[];
    }

    method SaveHead(chainID: nat, name: string, block: Block) returns (saved: bool)
      modifies this
      ensures rows == SaveEffect(old(rows), Observation(chainID, name, block))
      ensures saved <==> Acceptable(Observation(chainID, name, block))
    {
      var hash := ParseHash(block.hash);
      if hash.None? {
        return false;
      }
      var chain, number := Wrap(chainID), Wrap(block.number);
      if chain <= 0 || number < 0 {
        return false;
      }
      if chain !in rows {
        rows := rows[chain := Row(name, number, hash.value, block.time)];
      } else if number > rows[chain].number {
        rows := rows[chain := Row(name, number, hash.value, block.time)];
      }
      return true;
    }

    method LoadHead(chainID: nat) returns (head: Option<Block>)
      ensures head == Loaded(rows, chainID)
    {
      var chain := Wrap(chainID);
      if chain !in rows {
        return None;
      }
      return Some(Block(rows[chain].number, rows[chain].hash, rows[chain].time));
    }
  }

  /**
   SaveHead: a valid hash with a chain from 1 and a height, both below 2^63, is accepted, and
   nothing else is; then the row is the observation's if the chain had none or a lower one.
   */
  lemma SaveAnswers(rows: Rows, o: Observation)
    requires o.chainID <= 0xFFFF_FFFF_FFFF_FFFF && o.block.number <= 0xFFFF_FFFF_FFFF_FFFF
    ensures var hash := ParseHash(o.block.hash);
            var limit := 0x7FFF_FFFF_FFFF_FFFF;
            var good := hash.Some? && 1 <= o.chainID <= limit && o.block.number <= limit;
            && (Acceptable(o) <==> good)
            && (!good ==> SaveEffect(rows, o) == rows)
            && (good ==>
                  var higher := o.chainID !in rows || o.block.number > rows[o.chainID].number;
                  SaveEffect(rows, o) ==
                    (if higher then rows[o.chainID := Row(o.name, o.block.number, hash.value, o.block.time)] else rows))
  {
    hide ParseHash;
  }

  // ---- Runs ----

  function After(obs: seq<Observation>): Rows
  {
    if obs == [] then map[] else SaveEffect(After(obs[..|obs| - 1]), obs[|obs| - 1])
  }

  predicate For(o: Observation, chain: int) {
    Acceptable(o) && ChainOf(o) == chain
  }

  /** The earliest of the highest observations of a chain. */
  ghost predicate FirstHighest(obs: seq<Observation>, chain: int, i: int)
  {
    && 0 <= i < |obs| && For(obs[i], chain)
    && forall j :: 0 <= j < |obs| && For(obs[j], chain) ==>
         RowOf(obs[j]).number <= RowOf(obs[i]).number && (j < i ==> RowOf(obs[j]).number < RowOf(obs[i]).number)
  }

  /** The stored row is that of the earliest of the highest observations; none is stored only if none was acceptable. */
  lemma {:induction false} HeadIsFirstHighest(obs: seq<Observation>, chain: int)
    ensures chain in After(obs) ==> exists i :: FirstHighest(obs, chain, i) && After(obs)[chain] == RowOf(obs[i])
    ensures chain !in After(obs) ==> forall j :: 0 <= j < |obs| ==> !For(obs[j], chain)
  {
    hide ParseHash;
    if obs != [] {
      var n := |obs| - 1;
      var prior := obs[..n];
      HeadIsFirstHighest(prior, chain);
      if chain in After(obs) {
        if chain in After(prior) && After(obs)[chain] == After(prior)[chain] {
          var i :| FirstHighest(prior, chain, i) && After(prior)[chain] == RowOf(prior[i]);
          assert forall j :: 0 <= j < n ==> prior[j] == obs[j];
          assert FirstHighest(obs, chain, i);
        } else {
          if chain in After(prior) {
            var i :| FirstHighest(prior, chain, i) && After(prior)[chain] == RowOf(prior[i]);
          }
          assert forall j :: 0 <= j < n ==> prior[j] == obs[j];
          assert FirstHighest(obs, chain, n);
        }
      } else {
        assert forall j :: 0 <= j < n ==> prior[j] == obs[j];
      }
    }
  }

  /**
   What is read back after any observations is the earliest of the highest blocks seen of
   that chain, with its own number and time and its hash in canonical form, or nothing if
   nothing acceptable was seen.
   */
  lemma HeadReadsBack(obs: seq<Observation>, chainID: nat)
    ensures match Loaded(After(obs), chainID)
            case None => forall j :: 0 <= j < |obs| ==> !For(obs[j], Wrap(chainID))
            case Some(b) =>
              exists i :: && FirstHighest(obs, Wrap(chainID), i) && b.time == obs[i].block.time
                          && Some(b.hash) == ParseHash(obs[i].block.hash)
                          && (obs[i].block.number <= MAX_INT64 ==> b.number == obs[i].block.number)
  {
    hide ParseHash, After;
    HeadIsFirstHighest(obs, Wrap(chainID));
    if Wrap(chainID) in After(obs) {
      var i :| FirstHighest(obs, Wrap(chainID), i) && After(obs)[Wrap(chainID)] == RowOf(obs[i]);
      assert FirstHighest(obs, Wrap(chainID), i);
    }
  }

  /** Progress is never rewound, and no chain is ever forgotten. */
  lemma {:induction false} HeadNeverRewinds(earlier: seq<Observation>, later: seq<Observation>, chain: int)
    requires chain in After(earlier)
    ensures chain in After(earlier + later)
    ensures After(earlier)[chain].number <= After(earlier + later)[chain].number
  {
    hide ParseHash;
    if later == [] {
      assert earlier + later == earlier;
    } else {
      var n := |later| - 1;
      assert (earlier + later)[..|earlier + later| - 1] == earlier + later[..n];
      HeadNeverRewinds(earlier, later[..n], chain);
    }
  }

  /** Each height of a chain has one block. */
  ghost predicate OneBlockPerHeight(obs: seq<Observation>)
  {
    forall i, j :: 0 <= i < |obs| && 0 <= j < |obs| && Acceptable(obs[i]) && Acceptable(obs[j])
      && ChainOf(obs[i]) == ChainOf(obs[j]) && RowOf(obs[i]).number == RowOf(obs[j]).number
      ==> RowOf(obs[i]) == RowOf(obs[j])
  }

  lemma SameRow(a: seq<Observation>, b: seq<Observation>, chain: int)
    requires (forall o :: o in a <==> o in b) && OneBlockPerHeight(a)
    ensures chain in After(a) ==> chain in After(b) && After(a)[chain] == After(b)[chain]
  {
    hide ParseHash, After, Acceptable, RowOf, OneBlockPerHeight;
    HeadIsFirstHighest(a, chain);
    HeadIsFirstHighest(b, chain);
    if chain in After(a) {
      var i :| FirstHighest(a, chain, i) && After(a)[chain] == RowOf(a[i]);
      SomeoneSaw(a, b, i, chain);
      var k :| FirstHighest(b, chain, k) && After(b)[chain] == RowOf(b[k]);
      SameHeight(a, b, chain, i, k);
    }
  }

  /** When each height has one block, reordering and duplication of observations cannot be seen in the result. */
  lemma OrderDoesNotMatter(a: seq<Observation>, b: seq<Observation>)
    requires (forall o :: o in a <==> o in b) && OneBlockPerHeight(a)
    ensures After(a) == After(b)
  {
    hide After, OneBlockPerHeight;
    OneBlockInBoth(a, b);
    forall chain: int
      ensures chain in After(a) ==> chain in After(b) && After(a)[chain] == After(b)[chain]
      ensures chain in After(b) ==> chain in After(a)
    {
      SameRow(a, b, chain);
      SameRow(b, a, chain);
    }
  }

  lemma OneBlockInBoth(a: seq<Observation>, b: seq<Observation>)
    requires (forall o :: o in a <==> o in b) && OneBlockPerHeight(a)
    ensures OneBlockPerHeight(b)
  {
    hide Acceptable, RowOf;
    forall i, j | 0 <= i < |b| && 0 <= j < |b| && Acceptable(b[i]) && Acceptable(b[j])
      && ChainOf(b[i]) == ChainOf(b[j]) && RowOf(b[i]).number == RowOf(b[j]).number
      ensures RowOf(b[i]) == RowOf(b[j])
    {
      assert b[i] in a && b[j] in a;
      var k :| 0 <= k < |a| && a[k] == b[i];
      var m :| 0 <= m < |a| && a[m] == b[j];
    }
  }

  lemma SomeoneSaw(a: seq<Observation>, b: seq<Observation>, i: int, chain: int)
    requires (forall o :: o in a <==> o in b) && FirstHighest(a, chain, i)
    ensures exists j :: 0 <= j < |b| && For(b[j], chain) && b[j] == a[i]
  {
    assert a[i] in b;
  }

  lemma SameHeight(a: seq<Observation>, b: seq<Observation>, chain: int, i: int, k: int)
    requires (forall o :: o in a <==> o in b) && OneBlockPerHeight(a)
    requires FirstHighest(a, chain, i) && FirstHighest(b, chain, k)
    ensures RowOf(a[i]) == RowOf(b[k])
  {
    hide ParseHash;
    assert a[i] in b && b[k] in a;
    var j :| 0 <= j < |b| && b[j] == a[i];
    var m :| 0 <= m < |a| && a[m] == b[k];
  }
}
