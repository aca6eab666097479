/** Routing of inventory items and reports to maintenance contractors through
    the contract table. Two distinct rules exist: the round-robin used when the
    demo data is seeded, and `resolvePartner`, which takes the first match and
    also honours office scope. */
module ContractAssignment {
  import opened Common

  datatype Contract = Contract(
    id: string,
    partnerId: string,
    companyCode: string,
    officeCode: string,        // "" when the contract is not scoped to one office
    categories: seq<string>,
    status: string)

  datatype Partner = Partner(id: string, partnerCode: string, name: string)

  /** An inventory item or a report: both carry this shape. */
  datatype Entity = Entity(
    companyCode: string,
    officeCode: string,
    category: string,
    assignedPartnerId: Option<string>,
    assignedPartnerName: string)

  datatype Resolution = Resolution(partnerId: Option<string>, partnerName: string)

  // ---------------------------------------------------------------------
  // Partner lookup (`partners.find(...)`).

  /** Index of the first partner whose id is `pid`. */
  function FindPartnerById(ps: seq<Partner>, pid: string): (r: Option<nat>)
    ensures r.Some? ==> r.value < |ps| && ps[r.value].id == pid
    ensures r.Some? ==> forall j | 0 <= j < r.value :: ps[j].id != pid
    ensures r.None? ==> forall j | 0 <= j < |ps| :: ps[j].id != pid
  {
    if ps == [] then None
    else if ps[0].id == pid then Some(0)
    else
      match FindPartnerById(ps[1..], pid)
      case None => None
      case Some(i) => Some(i + 1)
  }

  /** Index of the first partner whose id or partner code is `pid`. */
  function FindPartnerByIdOrCode(ps: seq<Partner>, pid: string): (r: Option<nat>)
    ensures r.Some? ==> r.value < |ps| && (ps[r.value].id == pid || ps[r.value].partnerCode == pid)
    ensures r.Some? ==> forall j | 0 <= j < r.value :: ps[j].id != pid && ps[j].partnerCode != pid
    ensures r.None? ==> forall j | 0 <= j < |ps| :: ps[j].id != pid && ps[j].partnerCode != pid
  {
    if ps == [] then None
    else if ps[0].id == pid || ps[0].partnerCode == pid then Some(0)
    else
      match FindPartnerByIdOrCode(ps[1..], pid)
      case None => None
      case Some(i) => Some(i + 1)
  }

  /** `p ? p.name : ''` for the partner found at `found`. */
  function NameAt(ps: seq<Partner>, found: Option<nat>): string
    requires found.Some? ==> found.value < |ps|
  {
    match found
    case None => ""
    case Some(i) => ps[i].name
  }

  // ---------------------------------------------------------------------
  // Round-robin used while seeding the demo data.

  /** Seeding candidate: same company, active, category listed. Office scope is not checked. */
  predicate SeedMatch(c: Contract, company: string, category: string)
  {
    c.companyCode == company && c.status == "active" && category in c.categories
  }

  /** The matching contracts in their original order. */
  function SeedCandidates(cs: seq<Contract>, company: string, category: string): (r: seq<Contract>)
    ensures |r| <= |cs|
    ensures forall c | c in r :: c in cs && SeedMatch(c, company, category)
    ensures forall c | c in cs && SeedMatch(c, company, category) :: c in r
  {
    if cs == [] then []
    else if SeedMatch(cs[0], company, category) then [cs[0]] + SeedCandidates(cs[1..], company, category)
    else SeedCandidates(cs[1..], company, category)
  }

  function CandidatesOf(cs: seq<Contract>, e: Entity): seq<Contract>
  {
    SeedCandidates(cs, e.companyCode, e.category)
  }

  /** The counter key `companyCode + ':' + category`. */
  function CounterKey(e: Entity): string
  {
    e.companyCode + ":" + e.category
  }

  /** The counter value for `key` after the entities `es` have been seeded:
      the number of them with that key that had at least one candidate. */
  function SeedCount(es: seq<Entity>, cs: seq<Contract>, key: string): nat
    decreases |es|
  {
    if es == [] then 0
    else
      var e := es[|es| - 1];
      SeedCount(es[..|es| - 1], cs, key) + (if CounterKey(e) == key && |CandidatesOf(cs, e)| > 0 then 1 else 0)
  }

  /** The entity at position `i` after seeding: with candidates it gets the one
      its counter selects; without candidates it is unchanged. */
  function SeedAssigned(es: seq<Entity>, cs: seq<Contract>, ps: seq<Partner>, i: nat): Entity
    requires i < |es|
  {
    var e := es[i];
    var cts := CandidatesOf(cs, e);
    if |cts| == 0 then e
    else
      var ct := cts[SeedCount(es[..i], cs, CounterKey(e)) % |cts|];
      e.(assignedPartnerId := Some(ct.partnerId),
         assignedPartnerName := NameAt(ps, FindPartnerById(ps, ct.partnerId)))
  }

  function CounterValue(counters: map<string, nat>, key: string): nat
  {
    if key in counters then counters[key] else 0
  }

  /** One `allItems.forEach` (or `allReports.forEach`) block of `initDemoData`,
      with its own fresh counter map. */
  method AssignRoundRobin(entities: array<Entity>, contracts: seq<Contract>, partners: seq<Partner>)
    modifies entities
    ensures forall i | 0 <= i < entities.Length :: entities[i] == SeedAssigned(old(entities[..]), contracts, partners, i)
  {
    ghost var s0 := entities[..];
    var counters: map<string, nat> := map[];
    var i := 0;
    while i < entities.Length
      invariant 0 <= i <= entities.Length
      invariant forall j | 0 <= j < i :: entities[j] == SeedAssigned(s0, contracts, partners, j)
      invariant forall j | i <= j < entities.Length :: entities[j] == s0[j]
      invariant forall key :: CounterValue(counters, key) == SeedCount(s0[..i], contracts, key)
    {
      var e := entities[i];
      var cts := SeedCandidates(contracts, e.companyCode, e.category);
      assert s0[..i + 1][..i] == s0[..i];
      if |cts| > 0 {
        var key := e.companyCode + ":" + e.category;
        var idx := CounterValue(counters, key) % |cts|;
        counters := counters[key := CounterValue(counters, key) + 1];
        var ct := cts[idx];
        var p := FindPartnerById(partners, ct.partnerId);
        entities[i] := e.(assignedPartnerId := Some(ct.partnerId), assignedPartnerName := NameAt(partners, p));
      }
      i := i + 1;
    }
  }

  /** The seeding step of `initDemoData`: items and reports are assigned with
      separate counters, so neither list influences the other. */
  method SeedDemoAssignments(items: array<Entity>, reports: array<Entity>, contracts: seq<Contract>, partners: seq<Partner>)
    requires items != reports
    modifies items, reports
    ensures forall i | 0 <= i < items.Length :: items[i] == SeedAssigned(old(items[..]), contracts, partners, i)
    ensures forall i | 0 <= i < reports.Length :: reports[i] == SeedAssigned(old(reports[..]), contracts, partners, i)
  {
    AssignRoundRobin(items, contracts, partners);
    AssignRoundRobin(reports, contracts, partners);
  }

  /** A seeded entity either had no candidate and is unchanged, or is assigned
      the partner of an active contract of its company listing its category;
      only the two assignment fields ever change. */
  lemma SeedAssignedIsCandidate(es: seq<Entity>, cs: seq<Contract>, ps: seq<Partner>, i: nat)
    requires i < |es|
    ensures var r := SeedAssigned(es, cs, ps, i);
            && r.companyCode == es[i].companyCode && r.officeCode == es[i].officeCode && r.category == es[i].category
            && (|CandidatesOf(cs, es[i])| == 0 ==> r == es[i])
            && (|CandidatesOf(cs, es[i])| > 0 ==>
                  exists c | c in cs :: SeedMatch(c, es[i].companyCode, es[i].category) && r.assignedPartnerId == Some(c.partnerId))
  {
    var cts := CandidatesOf(cs, es[i]);
    if |cts| > 0 {
      var ct := cts[SeedCount(es[..i], cs, CounterKey(es[i])) % |cts|];
      assert ct in cts;
    }
  }

  /** In a batch where every entity has the same company and category, the
      count before position i is i. */
  lemma {:induction false} SeedCountUniform(es: seq<Entity>, cs: seq<Contract>, e: Entity)
    requires forall j | 0 <= j < |es| :: es[j].companyCode == e.companyCode && es[j].category == e.category
    requires |CandidatesOf(cs, e)| > 0
    ensures SeedCount(es, cs, CounterKey(e)) == |es|
    decreases |es|
  {
    if es != [] {
      SeedCountUniform(es[..|es| - 1], cs, e);
    }
  }

  /** Round-robin over a uniform batch: the i-th entity gets candidate i mod n. */
  lemma UniformBatchCycles(es: seq<Entity>, cs: seq<Contract>, ps: seq<Partner>, i: nat)
    requires i < |es|
    requires forall j | 0 <= j < |es| :: es[j].companyCode == es[0].companyCode && es[j].category == es[0].category
    requires |CandidatesOf(cs, es[0])| > 0
    ensures SeedAssigned(es, cs, ps, i).assignedPartnerId
            == Some(CandidatesOf(cs, es[0])[i % |CandidatesOf(cs, es[0])|].partnerId)
  {
    SeedCountUniform(es[..i], cs, es[i]);
    assert CandidatesOf(cs, es[i]) == CandidatesOf(cs, es[0]);
  }

  /** Between two entities with the same counter key, entities with other keys
      (or without candidates) do not move the counter. */
  lemma {:induction false} SeedCountGap(es: seq<Entity>, cs: seq<Contract>, i: nat, j: nat)
    requires i < j <= |es|
    requires |CandidatesOf(cs, es[i])| > 0
    requires forall k | i < k < j :: CounterKey(es[k]) != CounterKey(es[i]) || |CandidatesOf(cs, es[k])| == 0
    ensures SeedCount(es[..j], cs, CounterKey(es[i])) == SeedCount(es[..i], cs, CounterKey(es[i])) + 1
    decreases j
  {
    assert es[..j][..j - 1] == es[..j - 1];
    if j - 1 > i {
      SeedCountGap(es, cs, i, j - 1);
    }
  }

  /** Consecutive entities of the same company and category: if the first is
      served by candidate c mod n, the next is served by candidate (c + 1) mod n. */
  lemma RoundRobinNext(es: seq<Entity>, cs: seq<Contract>, ps: seq<Partner>, i: nat, j: nat)
    requires i < j < |es|
    requires es[j].companyCode == es[i].companyCode && es[j].category == es[i].category
    requires |CandidatesOf(cs, es[i])| > 0
    requires forall k | i < k < j :: CounterKey(es[k]) != CounterKey(es[i]) || |CandidatesOf(cs, es[k])| == 0
    ensures var cts := CandidatesOf(cs, es[i]);
            var c := SeedCount(es[..i], cs, CounterKey(es[i]));
            SeedAssigned(es, cs, ps, i).assignedPartnerId == Some(cts[c % |cts|].partnerId)
            && SeedAssigned(es, cs, ps, j).assignedPartnerId == Some(cts[(c + 1) % |cts|].partnerId)
  {
    SeedCountGap(es, cs, i, j);
  }

  /** The candidate filter keeps the contracts' order: filtering a
      concatenation concatenates the filtered parts, and a single contract is
      kept exactly when it matches. Together these determine the candidate list
      as the in-order subsequence of the matching contracts. */
  lemma {:induction false} SeedCandidatesInOrder(cs1: seq<Contract>, cs2: seq<Contract>, company: string, category: string)
    ensures SeedCandidates(cs1 + cs2, company, category)
            == SeedCandidates(cs1, company, category) + SeedCandidates(cs2, company, category)
    ensures |cs1| == 1 ==>
              SeedCandidates(cs1, company, category) == if SeedMatch(cs1[0], company, category) then cs1 else []
  {
    if cs1 == [] {
      assert cs1 + cs2 == cs2;
    } else {
      assert (cs1 + cs2)[0] == cs1[0];
      assert (cs1 + cs2)[1..] == cs1[1..] + cs2;
      SeedCandidatesInOrder(cs1[1..], cs2, company, category);
      if |cs1| == 1 {
        assert cs1 == [cs1[0]];
        assert cs1[1..] == [];
      }
    }
  }

  /** When every contract matches, the candidate list is the contract list in its order. */
  lemma {:induction false} AllMatchingKeepsOrder(cs: seq<Contract>, company: string, category: string)
    requires forall c | c in cs :: SeedMatch(c, company, category)
    ensures SeedCandidates(cs, company, category) == cs
  {
    if cs != [] {
      AllMatchingKeepsOrder(cs[1..], company, category);
    }
  }

  /** Three active contracts C1, C2, C3 for one company and category and four
      entities of that company and category: the partners are P1, P2, P3, P1. */
  lemma RoundRobinWindow(e: Entity, ps: seq<Partner>)
    requires e.companyCode == "T" && e.category == "CAT"
    ensures var cs := [Contract("C1", "P1", "T", "", ["CAT"], "active"),
                       Contract("C2", "P2", "T", "", ["CAT"], "active"),
                       Contract("C3", "P3", "T", "", ["CAT"], "active")];
            var es := [e, e, e, e];
            && SeedAssigned(es, cs, ps, 0).assignedPartnerId == Some("P1")
            && SeedAssigned(es, cs, ps, 1).assignedPartnerId == Some("P2")
            && SeedAssigned(es, cs, ps, 2).assignedPartnerId == Some("P3")
            && SeedAssigned(es, cs, ps, 3).assignedPartnerId == Some("P1")
  {
    var cs := [Contract("C1", "P1", "T", "", ["CAT"], "active"),
               Contract("C2", "P2", "T", "", ["CAT"], "active"),
               Contract("C3", "P3", "T", "", ["CAT"], "active")];
    var es := [e, e, e, e];
    AllMatchingKeepsOrder(cs, "T", "CAT");
    UniformBatchCycles(es, cs, ps, 0);
    UniformBatchCycles(es, cs, ps, 1);
    UniformBatchCycles(es, cs, ps, 2);
    UniformBatchCycles(es, cs, ps, 3);
  }

  // ---------------------------------------------------------------------
  // `resolvePartner`: first match, office scope honoured.

  /** An item is pre-assigned when its `assignedPartnerId` is truthy. */
  predicate PreAssigned(item: Entity)
  {
    item.assignedPartnerId.Some? && item.assignedPartnerId.value != ""
  }

  /** Active, same company, category listed, and unscoped or scoped to `officeCode`. */
  predicate ResolveMatch(c: Contract, item: Entity, officeCode: string)
  {
    c.status == "active" && c.companyCode == item.companyCode && item.category in c.categories
    && (c.officeCode == "" || c.officeCode == officeCode)
  }

  function ResolveCandidates(cs: seq<Contract>, item: Entity, officeCode: string): (r: seq<Contract>)
    ensures forall c | c in r :: c in cs && ResolveMatch(c, item, officeCode)
    ensures forall c | c in cs && ResolveMatch(c, item, officeCode) :: c in r
  {
    if cs == [] then []
    else if ResolveMatch(cs[0], item, officeCode) then [cs[0]] + ResolveCandidates(cs[1..], item, officeCode)
    else ResolveCandidates(cs[1..], item, officeCode)
  }

  /** Contract `i` is the first one that matches. */
  predicate IsFirstMatch(cs: seq<Contract>, item: Entity, officeCode: string, i: nat)
  {
    i < |cs| && ResolveMatch(cs[i], item, officeCode)
    && forall j | 0 <= j < i :: !ResolveMatch(cs[j], item, officeCode)
  }

  /** The head of the filtered list is the first matching contract. */
  lemma {:induction false} ResolveCandidatesHead(cs: seq<Contract>, item: Entity, officeCode: string)
    requires ResolveCandidates(cs, item, officeCode) != []
    ensures exists i: nat :: IsFirstMatch(cs, item, officeCode, i) && cs[i] == ResolveCandidates(cs, item, officeCode)[0]
  {
    if !ResolveMatch(cs[0], item, officeCode) {
      ResolveCandidatesHead(cs[1..], item, officeCode);
      var i: nat :| IsFirstMatch(cs[1..], item, officeCode, i) && cs[1..][i] == ResolveCandidates(cs[1..], item, officeCode)[0];
      assert IsFirstMatch(cs, item, officeCode, i + 1);
    } else {
      assert IsFirstMatch(cs, item, officeCode, 0);
    }
  }

  /** `resolvePartner(item, officeCode)` over the stored contracts and partners. */
  function ResolvePartner(item: Entity, officeCode: string, contracts: seq<Contract>, partners: seq<Partner>): (r: Resolution)
    ensures PreAssigned(item) ==> r == Resolution(item.assignedPartnerId, item.assignedPartnerName)
    ensures !PreAssigned(item) ==>
      (r.partnerId.Some? <==> item.category != "" && item.companyCode != ""
                              && exists c | c in contracts :: ResolveMatch(c, item, officeCode))
    ensures !PreAssigned(item) && r.partnerId.None? ==> r.partnerName == ""
    ensures !PreAssigned(item) && r.partnerId.Some? ==>
      exists i: nat :: IsFirstMatch(contracts, item, officeCode, i) && r.partnerId == Some(contracts[i].partnerId)
                  && r.partnerName == NameAt(partners, FindPartnerByIdOrCode(partners, contracts[i].partnerId))
  {
    if PreAssigned(item) then Resolution(item.assignedPartnerId, item.assignedPartnerName)
    else if item.category != "" && item.companyCode != "" then
      var matched := ResolveCandidates(contracts, item, officeCode);
      if |matched| > 0 then
        ResolveCandidatesHead(contracts, item, officeCode);
        var pid := matched[0].partnerId;
        Resolution(Some(pid), NameAt(partners, FindPartnerByIdOrCode(partners, pid)))
      else Resolution(None, "")
    else Resolution(None, "")
  }

  /** A pre-assigned item resolves to its partner whatever the contracts are. */
  lemma PreAssignmentShortCircuits(item: Entity, officeCode: string, cs1: seq<Contract>, cs2: seq<Contract>, ps: seq<Partner>)
    requires PreAssigned(item)
    ensures ResolvePartner(item, officeCode, cs1, ps) == ResolvePartner(item, officeCode, [], ps)
    ensures ResolvePartner(item, officeCode, cs1, ps).partnerId == item.assignedPartnerId
  {
  }

  /** The two rules disagree: seeding ignores office scope, `resolvePartner`
      does not. A contract scoped to office A is assigned by seeding to an item
      of office B, while `resolvePartner` for office B finds nothing. */
  lemma SeedingIgnoresOfficeScope(ps: seq<Partner>)
    ensures var cs := [Contract("K1", "P1", "TAMJ", "OFFICE-A", ["厨房"], "active")];
            var e := Entity("TAMJ", "OFFICE-B", "厨房", None, "");
            && SeedAssigned([e], cs, ps, 0).assignedPartnerId == Some("P1")
            && ResolvePartner(e, "OFFICE-B", cs, ps) == Resolution(None, "")
  {
    var cs := [Contract("K1", "P1", "TAMJ", "OFFICE-A", ["厨房"], "active")];
    var e := Entity("TAMJ", "OFFICE-B", "厨房", None, "");
    AllMatchingKeepsOrder(cs, "TAMJ", "厨房");
    assert !ResolveMatch(cs[0], e, "OFFICE-B");
  }

  // ---------------------------------------------------------------------
  // `getPartnerCompanies`.

  /** An active contract of partner `pid`. */
  predicate Serves(c: Contract, pid: string)
  {
    c.partnerId == pid && c.status == "active"
  }

  /** The companies served by `pid`, each once, in order of first occurrence. */
  function PartnerCompanies(cs: seq<Contract>, pid: string): seq<string>
    decreases |cs|
  {
    if cs == [] then []
    else
      var rest := PartnerCompanies(cs[..|cs| - 1], pid);
      var c := cs[|cs| - 1];
      if Serves(c, pid) && c.companyCode !in rest then rest + [c.companyCode] else rest
  }

  method GetPartnerCompanies(contracts: seq<Contract>, partnerId: string) returns (companies: seq<string>)
    ensures companies == PartnerCompanies(contracts, partnerId)
  {
    companies := [];
    var i := 0;
    while i < |contracts|
      invariant 0 <= i <= |contracts|
      invariant companies == PartnerCompanies(contracts[..i], partnerId)
    {
      var c := contracts[i];
      assert contracts[..i + 1][..i] == contracts[..i];
      if c.partnerId == partnerId && c.status == "active" && c.companyCode !in companies {
        companies := companies + [c.companyCode];
      }
      i := i + 1;
    }
    assert contracts[..i] == contracts;
  }

  /** Exactly the companies of the partner's active contracts, with no repeats. */
  lemma {:induction false} PartnerCompaniesMembers(cs: seq<Contract>, pid: string)
    ensures forall code :: code in PartnerCompanies(cs, pid) <==> exists c | c in cs :: Serves(c, pid) && c.companyCode == code
    ensures forall i, j | 0 <= i < j < |PartnerCompanies(cs, pid)| :: PartnerCompanies(cs, pid)[i] != PartnerCompanies(cs, pid)[j]
    decreases |cs|
  {
    if cs != [] {
      var init := cs[..|cs| - 1];
      PartnerCompaniesMembers(init, pid);
      assert cs == init + [cs[|cs| - 1]];
    }
  }

  /** First-occurrence order: if company a precedes company b in the result,
      every active contract of b is preceded by an active contract of a. */
  lemma {:induction false} PartnerCompaniesOrder(cs: seq<Contract>, pid: string, i: nat, j: nat, b: nat)
    requires i < j < |PartnerCompanies(cs, pid)|
    requires b < |cs| && Serves(cs[b], pid) && cs[b].companyCode == PartnerCompanies(cs, pid)[j]
    ensures exists a | 0 <= a < b :: Serves(cs[a], pid) && cs[a].companyCode == PartnerCompanies(cs, pid)[i]
    decreases |cs|
  {
    var init := cs[..|cs| - 1];
    var rest := PartnerCompanies(init, pid);
    var r := PartnerCompanies(cs, pid);
    PartnerCompaniesMembers(init, pid);
    assert r[i] == rest[i];
    assert r[i] in rest;
    var a0 :| a0 in init && Serves(a0, pid) && a0.companyCode == rest[i];
    var ai :| 0 <= ai < |init| && init[ai] == a0;
    if j < |rest| {
      assert r[j] == rest[j];
      if b < |init| {
        PartnerCompaniesOrder(init, pid, i, j, b);
        var a :| 0 <= a < b && Serves(init[a], pid) && init[a].companyCode == rest[i];
        assert cs[a] == init[a];
      } else {
        assert rest[j] in rest;
        var c0 :| c0 in init && Serves(c0, pid) && c0.companyCode == rest[j];
        var bi :| 0 <= bi < |init| && init[bi] == c0;
        PartnerCompaniesOrder(init, pid, i, j, bi);
        var a :| 0 <= a < bi && Serves(init[a], pid) && init[a].companyCode == rest[i];
        assert cs[a] == init[a];
      }
    } else {
      // r[j] is the company added by the last contract: no earlier contract serves it.
      assert r[j] !in rest;
      assert cs[ai] == a0;
    }
  }
}
