/** Daily service records and their correction chains. A record's id is its position in
    the table; rows are appended and only ever change status, version and successor. */
module Records {
  import opened Outcomes
  import opened Calendar

  datatype Kind = Service | Skip

  datatype RecordStatus = Active | Superseded | Voided

  datatype Record = Record(
    customer: nat,
    date: Date,
    milli: int,
    unitPrice: int,
    charge: int,
    kind: Kind,
    status: RecordStatus,
    corrects: Option<nat>,
    supersededBy: Option<nat>,
    adjustment: Option<int>,
    version: nat)

  // ---- the three transitions of the table --------------------------------------

  function Supersede(rs: seq<Record>, i: nat, version: nat, replacement: Record): seq<Record>
    requires i < |rs|
  {
    rs[i := rs[i].(status := Superseded, version := version, supersededBy := Some(|rs|))] + [replacement]
  }

  function VoidRecord(rs: seq<Record>, i: nat, version: nat): seq<Record>
    requires i < |rs|
  {
    rs[i := rs[i].(status := Voided, version := version)]
  }

  // ---- chains ------------------------------------------------------------------

  /** The chain is walkable in both directions, and a superseded row always has its
      successor. */
  ghost predicate Chained(rs: seq<Record>) {
    forall i :: 0 <= i < |rs| ==>
      (rs[i].status == Superseded <==> rs[i].supersededBy.Some?)
      && (rs[i].supersededBy.Some? ==>
            i < rs[i].supersededBy.value < |rs| && rs[rs[i].supersededBy.value].corrects == Some(i))
      && (rs[i].corrects.Some? ==>
            rs[i].corrects.value < i && rs[rs[i].corrects.value].supersededBy == Some(i))
  }

  function Next(rs: seq<Record>, i: nat): Option<nat>
    requires i < |rs|
  {
    if rs[i].supersededBy.Some? && i < rs[i].supersededBy.value < |rs| then rs[i].supersededBy else None
  }

  /** The last record of the chain that runs through `i`. */
  function Tail(rs: seq<Record>, i: nat): (t: nat)
    requires i < |rs|
    ensures i <= t < |rs| && Next(rs, t).None?
    decreases |rs| - i
  {
    match Next(rs, i)
    case None => i
    case Some(j) => Tail(rs, j)
  }

  /** How many links follow `i` in its chain. */
  function LinksAfter(rs: seq<Record>, i: nat): nat
    requires i < |rs|
    decreases |rs| - i
  {
    match Next(rs, i)
    case None => 0
    case Some(j) => 1 + LinksAfter(rs, j)
  }

  /** How many of the links after `i` are SKIPs. */
  function SkipsAfter(rs: seq<Record>, i: nat): nat
    requires i < |rs|
    decreases |rs| - i
  {
    match Next(rs, i)
    case None => 0
    case Some(j) => (if rs[j].kind == Skip then 1 else 0) + SkipsAfter(rs, j)
  }

  /** How many of the links after `i` are SKIPs whose own accepted life has ended. */
  function EndedSkipsAfter(rs: seq<Record>, i: nat): nat
    requires i < |rs|
    decreases |rs| - i
  {
    match Next(rs, i)
    case None => 0
    case Some(j) => (if rs[j].kind == Skip && rs[j].status != Active then 1 else 0) + EndedSkipsAfter(rs, j)
  }

  lemma {:induction false} SkipsSplit(rs: seq<Record>, i: nat)
    requires Chained(rs) && i < |rs|
    ensures var t := Tail(rs, i);
            SkipsAfter(rs, i)
            == EndedSkipsAfter(rs, i) + if t != i && rs[t].kind == Skip && rs[t].status == Active then 1 else 0
    decreases |rs| - i
  {
    if Next(rs, i).Some? {
      SkipsSplit(rs, Next(rs, i).value);
    }
  }

  /** The record and every record it corrects. */
  function Chain(rs: seq<Record>, i: nat): (c: set<nat>)
    requires i < |rs|
    ensures i in c && forall x :: x in c ==> x <= i
  {
    {i} + if rs[i].corrects.Some? && rs[i].corrects.value < i then Chain(rs, rs[i].corrects.value) else {}
  }

  /** Walking forward and walking back agree: from a record that has not been superseded,
      its chain is exactly the records whose walk forward ends at it. */
  lemma {:induction false} ChainIsTailClass(rs: seq<Record>, t: nat, x: nat)
    requires Chained(rs) && t < |rs| && x < |rs| && rs[t].status != Superseded
    ensures x in Chain(rs, t) <==> Tail(rs, x) == t
  {
    if x in Chain(rs, t) {
      InChainSameTail(rs, t, x);
    }
    if Tail(rs, x) == t {
      InTailsChain(rs, x);
    }
  }

  lemma {:induction false} InChainSameTail(rs: seq<Record>, t: nat, x: nat)
    requires Chained(rs) && t < |rs| && x in Chain(rs, t)
    ensures x < |rs| && Tail(rs, x) == Tail(rs, t)
  {
    if x != t {
      InChainSameTail(rs, rs[t].corrects.value, x);
    }
  }

  lemma {:induction false} InTailsChain(rs: seq<Record>, x: nat)
    requires Chained(rs) && x < |rs|
    ensures x in Chain(rs, Tail(rs, x))
    decreases |rs| - x
  {
    if Next(rs, x).Some? {
      var j := Next(rs, x).value;
      InTailsChain(rs, j);
      ChainGrows(rs, Tail(rs, j), j);
    }
  }

  lemma {:induction false} ChainGrows(rs: seq<Record>, t: nat, j: nat)
    requires Chained(rs) && t < |rs| && j in Chain(rs, t) && rs[j].corrects.Some?
    ensures rs[j].corrects.value in Chain(rs, t)
  {
    if j != t {
      ChainGrows(rs, rs[t].corrects.value, j);
    }
  }

  // ---- how the transitions move chains -----------------------------------------

  lemma {:induction false} AppendKeepsChains(rs: seq<Record>, r: Record, x: nat)
    requires Chained(rs) && r.corrects.None? && r.supersededBy.None? && r.status != Superseded
    requires x < |rs|
    ensures Chained(rs + [r])
    ensures Tail(rs + [r], x) == Tail(rs, x)
    ensures SkipsAfter(rs + [r], x) == SkipsAfter(rs, x) && LinksAfter(rs + [r], x) == LinksAfter(rs, x)
    decreases |rs| - x
  {
    if Next(rs, x).Some? {
      AppendKeepsChains(rs, r, Next(rs, x).value);
    }
  }

  lemma {:induction false} VoidKeepsChains(rs: seq<Record>, i: nat, version: nat, x: nat)
    requires Chained(rs) && i < |rs| && rs[i].status == Active && x < |rs|
    ensures Chained(VoidRecord(rs, i, version))
    ensures Tail(VoidRecord(rs, i, version), x) == Tail(rs, x)
    ensures SkipsAfter(VoidRecord(rs, i, version), x) == SkipsAfter(rs, x)
    ensures LinksAfter(VoidRecord(rs, i, version), x) == LinksAfter(rs, x)
    decreases |rs| - x
  {
    if Next(rs, x).Some? {
      VoidKeepsChains(rs, i, version, Next(rs, x).value);
    }
  }

  lemma {:induction false} SupersedeExtendsChain(rs: seq<Record>, i: nat, version: nat, r: Record, x: nat)
    requires Chained(rs) && i < |rs| && rs[i].status == Active && x < |rs|
    requires r.corrects == Some(i) && r.supersededBy.None? && r.status == Active
    ensures Chained(Supersede(rs, i, version, r))
    ensures var rs' := Supersede(rs, i, version, r);
            if Tail(rs, x) == i then
              Tail(rs', x) == |rs| && LinksAfter(rs', x) == LinksAfter(rs, x) + 1
              && SkipsAfter(rs', x) == SkipsAfter(rs, x) + if r.kind == Skip then 1 else 0
            else
              Tail(rs', x) == Tail(rs, x) && LinksAfter(rs', x) == LinksAfter(rs, x)
              && SkipsAfter(rs', x) == SkipsAfter(rs, x)
    decreases |rs| - x
  {
    var rs' := Supersede(rs, i, version, r);
    SupersedeKeepsChained(rs, i, version, r);
    if x == i {
      SupersededTail(rs, i, version, r, rs');
    } else if Next(rs, x).Some? {
      SupersedeExtendsChain(rs, i, version, r, Next(rs, x).value);
    }
  }

  /** The superseded record is now one link from the end. */
  lemma {:induction false} SupersededTail(rs: seq<Record>, i: nat, version: nat, r: Record, rs': seq<Record>)
    requires Chained(rs) && i < |rs| && rs[i].status == Active && rs' == Supersede(rs, i, version, r)
    requires r.supersededBy.None?
    ensures Next(rs, i).None? && Tail(rs', i) == |rs| && LinksAfter(rs', i) == 1
    ensures SkipsAfter(rs', i) == if r.kind == Skip then 1 else 0
  {
    assert Next(rs', i) == Some(|rs|) && Next(rs', |rs|).None?;
    assert SkipsAfter(rs', |rs|) == 0 && LinksAfter(rs', |rs|) == 0;
  }

  lemma SupersedeKeepsChained(rs: seq<Record>, i: nat, version: nat, r: Record)
    requires Chained(rs) && i < |rs| && rs[i].status == Active
    requires r.corrects == Some(i) && r.supersededBy.None? && r.status == Active
    ensures Chained(Supersede(rs, i, version, r))
  {
    var rs' := Supersede(rs, i, version, r);
    forall x | 0 <= x < |rs'|
      ensures rs'[x].status == Superseded <==> rs'[x].supersededBy.Some?
      ensures rs'[x].supersededBy.Some? ==>
                x < rs'[x].supersededBy.value < |rs'| && rs'[rs'[x].supersededBy.value].corrects == Some(x)
      ensures rs'[x].corrects.Some? ==>
                rs'[x].corrects.value < x && rs'[rs'[x].corrects.value].supersededBy == Some(x)
    {
      if x < |rs| && rs[x].corrects.Some? {
        assert rs[x].corrects.value != i;
      }
    }
  }
}
