/** The economy page around the settlement: the id → display-name map, the
    "YOU OWE" gross-debt view, the per-payer paid totals, and the closing of
    the settlement for the viewer. */
module Economy {
  import opened Common
  import opened JsObject
  import opened Settlement

  /** An expense as the expenses endpoint lists it: `amount` in cents. */
  datatype Expense = Expense(paidBy: nat, amount: int, sharedBetween: seq<nat>)

  /** One slice of the pie chart: `name` is undefined (None) for a payer who is
      not in the participant map. */
  datatype PaidRow = PaidRow(name: Option<string>, value: int)

  /** One line of the settlement popup. */
  datatype Owed = Owed(toName: Option<string>, amount: int)

  // ---------------------------------------------------------------------------
  // The participant map and the viewer.
  // ---------------------------------------------------------------------------

  function Fallback(id: nat): string
  {
    "Participant " + NatToString(id)
  }

  /** `p.username || \`Participant ${p.participant_id}\`` */
  function DisplayName(p: Participant): (name: string)
    ensures name != []
  {
    if p.username != "" then p.username else Fallback(p.participantId)
  }

  /** `map[p.participant_id] = ...` for every participant in turn. */
  function NameMap(ps: seq<Participant>): Dict<string>
  {
    if ps == [] then []
    else Put(NameMap(Front(ps)), Last(ps).participantId, DisplayName(Last(ps)))
  }

  /** The last participant carrying `id`: the one whose write survives. */
  function LastWithId(ps: seq<Participant>, id: nat): (r: Option<Participant>)
    ensures r.Some? ==> r.value in ps && r.value.participantId == id
    ensures r.None? ==> forall k :: 0 <= k < |ps| ==> ps[k].participantId != id
    ensures r.Some? ==>
      exists k :: 0 <= k < |ps| && ps[k] == r.value && forall j :: k < j < |ps| ==> ps[j].participantId != id
  {
    if ps == [] then None
    else if Last(ps).participantId == id then Some(Last(ps))
    else
      var r := LastWithId(Front(ps), id);
      assert forall k :: 0 <= k < |ps| - 1 ==> ps[k] == Front(ps)[k];
      r
  }

  /** The participant id of the last participant whose user is the logged-in
      user: each match calls `setCurrentUserParticipantId` again. */
  function ViewerOf(ps: seq<Participant>, loggedInUserId: nat): (r: Option<nat>)
    ensures r.None? <==> forall k :: 0 <= k < |ps| ==> ps[k].userId != loggedInUserId
    ensures r.Some? ==> exists k :: 0 <= k < |ps| && ps[k].userId == loggedInUserId
                                   && ps[k].participantId == r.value
    ensures r.Some? ==>
      exists k :: 0 <= k < |ps| && ps[k].userId == loggedInUserId && ps[k].participantId == r.value
                   && forall j :: k < j < |ps| ==> ps[j].userId != loggedInUserId
  {
    if ps == [] then None
    else if Last(ps).userId == loggedInUserId then
      assert ps[|ps| - 1] == Last(ps);
      Some(Last(ps).participantId)
    else
      var r := ViewerOf(Front(ps), loggedInUserId);
      assert forall k :: 0 <= k < |ps| - 1 ==> ps[k] == Front(ps)[k];
      r
  }

  /** The participant map is ordered by id, and each id shows the display name
      of the last participant carrying it; ids of nobody are undefined. */
  lemma {:induction false} NameMapLaws(ps: seq<Participant>, id: nat)
    ensures Ordered(NameMap(ps))
    ensures Get(NameMap(ps), id) == match LastWithId(ps, id)
                                      case Some(p) => Some(DisplayName(p))
                                      case None => None
  {
    if ps != [] {
      NameMapLaws(Front(ps), id);
      PutOrdered(NameMap(Front(ps)), Last(ps).participantId, DisplayName(Last(ps)));
      GetPut(NameMap(Front(ps)), Last(ps).participantId, DisplayName(Last(ps)), id);
    }
  }

  /** The fetch handler's loop over the participants. */
  method LoadParticipants(participants: seq<Participant>, loggedInUserId: nat)
    returns (participantMap: Dict<string>, viewer: Option<nat>)
    ensures participantMap == NameMap(participants)
    ensures viewer == ViewerOf(participants, loggedInUserId)
  {
    participantMap, viewer := [], None;
    for k := 0 to |participants|
      invariant participantMap == NameMap(participants[..k])
      invariant viewer == ViewerOf(participants[..k], loggedInUserId)
    {
      var p := participants[k];
      assert participants[..k + 1][..k] == participants[..k];
      participantMap := Put(participantMap, p.participantId, DisplayName(p));
      if p.userId == loggedInUserId {
        viewer := Some(p.participantId);
      }
    }
    assert participants[..|participants|] == participants;
  }

  // ---------------------------------------------------------------------------
  // "YOU OWE": gross debts keyed by the payer's display name.
  // ---------------------------------------------------------------------------

  /** `participantMap[payer] || \`Participant ${payer}\`` */
  function PayerName(participantMap: Dict<string>, payer: nat): (name: string)
    ensures name != []
  {
    match Get(participantMap, payer)
    case Some(n) => if n != "" then n else Fallback(payer)
    case None => Fallback(payer)
  }

  predicate Shared(expenses: seq<Expense>)
  {
    forall k :: 0 <= k < |expenses| ==> |expenses[k].sharedBetween| > 0
  }

  /** `Number(exp.amount) / participants.length`, in cents. */
  function Share(e: Expense): real
    requires |e.sharedBetween| > 0
  {
    e.amount as real / |e.sharedBetween| as real
  }

  /** The `forEach` over the expenses, one `debts[payerName] += share` per
      expense not paid by the viewer. */
  function Debts(expenses: seq<Expense>, viewer: nat, participantMap: Dict<string>): map<string, real>
    requires Shared(expenses)
  {
    if expenses == [] then map[]
    else
      var debts := Debts(Front(expenses), viewer, participantMap);
      var e := Last(expenses);
      if e.paidBy != viewer then
        var name := PayerName(participantMap, e.paidBy);
        debts[name := (if name in debts then debts[name] else 0.0) + Share(e)]
      else debts
  }

  /** Whether some expense not paid by the viewer has a payer shown as `name`. */
  predicate OwesTo(expenses: seq<Expense>, viewer: nat, participantMap: Dict<string>, name: string)
  {
    exists k :: 0 <= k < |expenses| && expenses[k].paidBy != viewer
                && PayerName(participantMap, expenses[k].paidBy) == name
  }

  /** The viewer's gross debt to `name`: the share of every expense not paid
      by the viewer whose payer is shown as `name`, whoever the expense was
      shared between. */
  function DebtTo(expenses: seq<Expense>, viewer: nat, participantMap: Dict<string>, name: string): real
    requires Shared(expenses)
  {
    if expenses == [] then 0.0
    else
      var e := expenses[0];
      (if e.paidBy != viewer && PayerName(participantMap, e.paidBy) == name then Share(e) else 0.0)
        + DebtTo(expenses[1..], viewer, participantMap, name)
  }

  lemma {:induction false} DebtToAppend(expenses: seq<Expense>, e: Expense, viewer: nat,
                                        participantMap: Dict<string>, name: string)
    requires Shared(expenses) && |e.sharedBetween| > 0
    ensures Shared(expenses + [e])
    ensures DebtTo(expenses + [e], viewer, participantMap, name)
      == DebtTo(expenses, viewer, participantMap, name)
         + (if e.paidBy != viewer && PayerName(participantMap, e.paidBy) == name then Share(e) else 0.0)
  {
    if expenses != [] {
      assert (expenses + [e])[1..] == expenses[1..] + [e];
      DebtToAppend(expenses[1..], e, viewer, participantMap, name);
    } else {
      assert ([e])[1..] == [];
    }
  }

  /** The gross-debt map holds a name exactly when some expense not paid by
      the viewer has a payer shown under it, and then holds the viewer's whole
      gross debt to that name. */
  lemma {:induction false} DebtsByName(expenses: seq<Expense>, viewer: nat,
                                       participantMap: Dict<string>, name: string)
    requires Shared(expenses)
    ensures name in Debts(expenses, viewer, participantMap)
      <==> OwesTo(expenses, viewer, participantMap, name)
    ensures name in Debts(expenses, viewer, participantMap)
      ==> Debts(expenses, viewer, participantMap)[name] == DebtTo(expenses, viewer, participantMap, name)
  {
    if expenses != [] {
      var front, e := Front(expenses), Last(expenses);
      assert expenses == front + [e];
      DebtsByName(front, viewer, participantMap, name);
      DebtToAppend(front, e, viewer, participantMap, name);
      if OwesTo(front, viewer, participantMap, name) {
        var k :| 0 <= k < |front| && front[k].paidBy != viewer
                 && PayerName(participantMap, front[k].paidBy) == name;
        assert expenses[k] == front[k];
      }
      if OwesTo(expenses, viewer, participantMap, name) {
        var k :| 0 <= k < |expenses| && expenses[k].paidBy != viewer
                 && PayerName(participantMap, expenses[k].paidBy) == name;
        if k < |front| {
          assert front[k] == expenses[k];
        }
      }
      if !OwesTo(front, viewer, participantMap, name) {
        DebtToNone(front, viewer, participantMap, name);
      }
    }
  }

  lemma {:induction false} DebtToNone(expenses: seq<Expense>, viewer: nat,
                                      participantMap: Dict<string>, name: string)
    requires Shared(expenses) && !OwesTo(expenses, viewer, participantMap, name)
    ensures DebtTo(expenses, viewer, participantMap, name) == 0.0
  {
    if expenses != [] {
      assert expenses[0] == expenses[0];
      assert !(expenses[0].paidBy != viewer && PayerName(participantMap, expenses[0].paidBy) == name);
      forall k | 0 <= k < |expenses[1..]|
        ensures !(expenses[1..][k].paidBy != viewer
                  && PayerName(participantMap, expenses[1..][k].paidBy) == name)
      {
        assert expenses[1..][k] == expenses[k + 1];
      }
      DebtToNone(expenses[1..], viewer, participantMap, name);
    }
  }

  /** The effect computing the gross debts. */
  method ComputeDebts(expenses: seq<Expense>, viewer: nat, participantMap: Dict<string>)
    returns (debts: map<string, real>)
    requires Shared(expenses)
    ensures debts == Debts(expenses, viewer, participantMap)
  {
    debts := map[];
    for k := 0 to |expenses|
      invariant debts == Debts(expenses[..k], viewer, participantMap)
    {
      var exp := expenses[k];
      assert expenses[..k + 1][..k] == expenses[..k];
      var isNotPayer := exp.paidBy != viewer;
      if isNotPayer {
        var share := exp.amount as real / |exp.sharedBetween| as real;
        var payerName := PayerName(participantMap, exp.paidBy);
        debts := debts[payerName := (if payerName in debts then debts[payerName] else 0.0) + share];
      }
    }
    assert expenses[..|expenses|] == expenses;
  }

  // ---------------------------------------------------------------------------
  // The pie chart: paid totals per payer.
  // ---------------------------------------------------------------------------

  /** `paidMap[payer] = (paidMap[payer] || 0) + Number(exp.amount)` for every
      expense in turn. */
  function PaidMap(expenses: seq<Expense>): Dict<int>
  {
    if expenses == [] then []
    else
      var m := PaidMap(Front(expenses));
      var e := Last(expenses);
      Put(m, e.paidBy, Get(m, e.paidBy).GetOr(0) + e.amount)
  }

  /** What `payer` paid over all expenses, whoever they were shared between. */
  function PaidBy(expenses: seq<Expense>, payer: nat): int
  {
    if expenses == [] then 0
    else (if expenses[0].paidBy == payer then expenses[0].amount else 0) + PaidBy(expenses[1..], payer)
  }

  predicate IsPayer(expenses: seq<Expense>, payer: nat)
  {
    exists k :: 0 <= k < |expenses| && expenses[k].paidBy == payer
  }

  function AmountSum(expenses: seq<Expense>): int
  {
    if expenses == [] then 0 else expenses[0].amount + AmountSum(expenses[1..])
  }

  lemma {:induction false} PaidByAppend(expenses: seq<Expense>, e: Expense, payer: nat)
    ensures PaidBy(expenses + [e], payer) == PaidBy(expenses, payer) + (if e.paidBy == payer then e.amount else 0)
    ensures AmountSum(expenses + [e]) == AmountSum(expenses) + e.amount
  {
    if expenses != [] {
      assert (expenses + [e])[1..] == expenses[1..] + [e];
      PaidByAppend(expenses[1..], e, payer);
    } else {
      assert ([e])[1..] == [];
    }
  }

  lemma {:induction false} PaidMapOrdered(expenses: seq<Expense>)
    ensures Ordered(PaidMap(expenses))
  {
    if expenses != [] {
      var m, e := PaidMap(Front(expenses)), Last(expenses);
      PaidMapOrdered(Front(expenses));
      PutOrdered(m, e.paidBy, Get(m, e.paidBy).GetOr(0) + e.amount);
    }
  }

  /** The paid map has a key for every payer and no one else, and under each
      payer holds what that payer paid. */
  lemma {:induction false} PaidMapLaws(expenses: seq<Expense>, payer: nat)
    ensures Get(PaidMap(expenses), payer)
      == if IsPayer(expenses, payer) then Some(PaidBy(expenses, payer)) else None
  {
    if expenses != [] {
      var front, e := Front(expenses), Last(expenses);
      var m := PaidMap(front);
      var v := Get(m, e.paidBy).GetOr(0) + e.amount;
      assert PaidMap(expenses) == Put(m, e.paidBy, v);
      assert expenses == front + [e];
      PaidMapLaws(front, payer);
      PaidMapStep(front, e, payer, m, v);
    }
  }

  /** One expense more: the law carries over from the map before it. */
  lemma PaidMapStep(front: seq<Expense>, e: Expense, payer: nat, m: Dict<int>, v: int)
    requires Get(m, payer) == if IsPayer(front, payer) then Some(PaidBy(front, payer)) else None
    requires v == Get(m, e.paidBy).GetOr(0) + e.amount
    ensures Get(Put(m, e.paidBy, v), payer)
      == if IsPayer(front + [e], payer) then Some(PaidBy(front + [e], payer)) else None
  {
    GetPut(m, e.paidBy, v, payer);
    PaidByAppend(front, e, payer);
    if payer == e.paidBy {
      if !IsPayer(front, payer) {
        PaidByNone(front, payer);
      }
      assert (front + [e])[|front|].paidBy == payer;
    } else {
      IsPayerAppend(front, e, payer);
    }
  }

  lemma IsPayerAppend(front: seq<Expense>, e: Expense, payer: nat)
    requires e.paidBy != payer
    ensures IsPayer(front + [e], payer) == IsPayer(front, payer)
  {
    var expenses := front + [e];
    if IsPayer(front, payer) {
      var k :| 0 <= k < |front| && front[k].paidBy == payer;
      assert expenses[k] == front[k];
    }
    if IsPayer(expenses, payer) {
      var k :| 0 <= k < |expenses| && expenses[k].paidBy == payer;
      assert front[k] == expenses[k];
    }
  }

  lemma {:induction false} PaidByNone(expenses: seq<Expense>, payer: nat)
    requires !IsPayer(expenses, payer)
    ensures PaidBy(expenses, payer) == 0
  {
    if expenses != [] {
      assert expenses[0] == expenses[0];
      forall k | 0 <= k < |expenses[1..]|
        ensures expenses[1..][k].paidBy != payer
      {
        assert expenses[1..][k] == expenses[k + 1];
      }
      PaidByNone(expenses[1..], payer);
    }
  }

  /** `Object.entries(paidMap).map(...)`: one row per payer, in ascending
      payer id, named by `participantMap[id]`. */
  function PaidRows(paidMap: Dict<int>, participantMap: Dict<string>): seq<PaidRow>
  {
    seq(|paidMap|, i requires 0 <= i < |paidMap| =>
      PaidRow(Get(participantMap, paidMap[i].0), paidMap[i].1))
  }

  /** `data.reduce((sum, entry) => sum + entry.value, 0)` */
  function TotalOf(rows: seq<PaidRow>): int
  {
    if rows == [] then 0 else rows[0].value + TotalOf(rows[1..])
  }

  function ValueSum(d: Dict<int>): int
  {
    if d == [] then 0 else d[0].1 + ValueSum(d[1..])
  }

  /** Writing `v` under a key trades the value it held for `v` in the sum of
      the values. */
  lemma {:induction false} PutSum(d: Dict<int>, k: nat, v: int)
    requires Ordered(d)
    ensures ValueSum(Put(d, k, v)) == ValueSum(d) - Get(d, k).GetOr(0) + v
  {
    if d != [] {
      var r := Put(d, k, v);
      if k < d[0].0 {
        if k in Keys(d[1..]) {
          OrderedBelow(d, k);
        }
        assert r[1..] == d;
      } else if k == d[0].0 {
        assert r[1..] == d[1..];
      } else {
        PutSum(d[1..], k, v);
        assert r[1..] == Put(d[1..], k, v);
      }
    }
  }

  lemma {:induction false} PaidMapSum(expenses: seq<Expense>)
    ensures ValueSum(PaidMap(expenses)) == AmountSum(expenses)
  {
    if expenses != [] {
      var front, e := Front(expenses), Last(expenses);
      assert expenses == front + [e];
      var m := PaidMap(front);
      var v := Get(m, e.paidBy).GetOr(0) + e.amount;
      assert PaidMap(expenses) == Put(m, e.paidBy, v);
      PaidMapSum(front);
      PaidMapOrdered(front);
      PutSum(m, e.paidBy, v);
      PaidByAppend(front, e, 0);
    }
  }

  lemma {:induction false} RowsTotal(paidMap: Dict<int>, participantMap: Dict<string>)
    ensures TotalOf(PaidRows(paidMap, participantMap)) == ValueSum(paidMap)
  {
    if paidMap != [] {
      assert PaidRows(paidMap, participantMap)[1..] == PaidRows(paidMap[1..], participantMap);
      RowsTotal(paidMap[1..], participantMap);
    }
  }

  /** The pie chart's total is the sum of all expense amounts. */
  lemma TotalIsAllExpenses(expenses: seq<Expense>, participantMap: Dict<string>)
    ensures TotalOf(PaidRows(PaidMap(expenses), participantMap)) == AmountSum(expenses)
  {
    RowsTotal(PaidMap(expenses), participantMap);
    PaidMapSum(expenses);
  }

  /** The effect computing the pie chart data and the total. */
  method PaidPerPayer(expenses: seq<Expense>, participantMap: Dict<string>)
    returns (data: seq<PaidRow>, totalAmount: int)
    ensures data == PaidRows(PaidMap(expenses), participantMap)
    ensures totalAmount == TotalOf(data)
  {
    var paidMap: Dict<int> := [];
    for k := 0 to |expenses|
      invariant paidMap == PaidMap(expenses[..k])
    {
      var exp := expenses[k];
      assert expenses[..k + 1][..k] == expenses[..k];
      paidMap := Put(paidMap, exp.paidBy, Get(paidMap, exp.paidBy).GetOr(0) + exp.amount);
    }
    assert expenses[..|expenses|] == expenses;
    data := PaidRows(paidMap, participantMap);
    totalAmount := TotalOf(data);
  }

  // ---------------------------------------------------------------------------
  // Closing the settlement: names back to ids, then the viewer's transfers.
  // ---------------------------------------------------------------------------

  /** The `for (let pid in participantMap)` lookup: the first id whose name is
      `user.name`; an undefined name matches nothing, and `Number(undefined)`
      is NaN, which is no participant's id. */
  function IdForName(participantMap: Dict<string>, name: Option<string>): Option<nat>
  {
    match name
    case None => None
    case Some(n) => FirstKeyOf(participantMap, n)
  }

  /** `totalPaidPerUserID` */
  function PaidEntries(participantMap: Dict<string>, rows: seq<PaidRow>): seq<PaidEntry>
  {
    seq(|rows|, i requires 0 <= i < |rows| =>
      PaidEntry(IdForName(participantMap, rows[i].name), rows[i].value))
  }

  /** `myDebts`: the transfers whose payer is the viewer, in order. */
  function Mine(ts: seq<Transfer>, viewer: nat): seq<Transfer>
  {
    if ts == [] then []
    else (if ts[0].fromId == viewer then [ts[0]] else []) + Mine(ts[1..], viewer)
  }

  /** The popup lines for the viewer's transfers. */
  function OwedLines(mine: seq<Transfer>, participantMap: Dict<string>): seq<Owed>
  {
    seq(|mine|, k requires 0 <= k < |mine| =>
      Owed(Get(participantMap, mine[k].toId), mine[k].amount))
  }

  /** What `handleCloseSettlement` puts in the popup. */
  function PersonalView(participantMap: Dict<string>, rows: seq<PaidRow>,
                        participants: seq<Participant>, viewer: nat): seq<Owed>
  {
    OwedLines(Mine(Settle(PaidEntries(participantMap, rows), participants), viewer), participantMap)
  }

  lemma {:induction false} MineAppend(ts: seq<Transfer>, t: Transfer, viewer: nat)
    ensures Mine(ts + [t], viewer) == Mine(ts, viewer) + (if t.fromId == viewer then [t] else [])
  {
    if ts != [] {
      assert (ts + [t])[1..] == ts[1..] + [t];
      MineAppend(ts[1..], t, viewer);
    } else {
      assert [t][1..] == [];
    }
  }

  /** The lookup loop finds what FirstKeyOf describes. */
  lemma FirstKeyAt(d: Dict<string>, name: string, t: int)
    requires 0 <= t <= |d|
    requires forall i :: 0 <= i < t ==> d[i].1 != name
    ensures t < |d| && d[t].1 == name ==> FirstKeyOf(d, name) == Some(d[t].0)
    ensures t == |d| ==> FirstKeyOf(d, name) == None
  {
    if d != [] && 0 < t {
      assert forall i :: 0 <= i < t - 1 ==> d[1..][i] == d[i + 1];
      FirstKeyAt(d[1..], name, t - 1);
    }
  }

  /** The first loop of `handleCloseSettlement`: each row's name looked up
      in the participant map, breaking at the first match. */
  method LookUpIds(participantMap: Dict<string>, totalPaidPerUser: seq<PaidRow>)
    returns (totalPaidPerUserID: seq<PaidEntry>)
    ensures totalPaidPerUserID == PaidEntries(participantMap, totalPaidPerUser)
  {
    totalPaidPerUserID := [];
    for i := 0 to |totalPaidPerUser|
      invariant totalPaidPerUserID == PaidEntries(participantMap, totalPaidPerUser[..i])
    {
      var user := totalPaidPerUser[i];
      var id: Option<nat> := None;
      if user.name.Some? {
        var t := 0;
        while t < |participantMap|
          invariant 0 <= t <= |participantMap|
          invariant forall i' :: 0 <= i' < t ==> participantMap[i'].1 != user.name.value
        {
          if participantMap[t].1 == user.name.value {
            id := Some(participantMap[t].0);
            break;
          }
          t := t + 1;
        }
        FirstKeyAt(participantMap, user.name.value, t);
      }
      totalPaidPerUserID := totalPaidPerUserID + [PaidEntry(id, user.value)];
      assert PaidEntries(participantMap, totalPaidPerUser[..i + 1])
        == PaidEntries(participantMap, totalPaidPerUser[..i]) + [PaidEntry(id, user.value)];
    }
    assert totalPaidPerUser[..|totalPaidPerUser|] == totalPaidPerUser;
  }

  /** The loop collecting `myDebts`. */
  method MyDebts(allSettlements: seq<Transfer>, viewer: nat) returns (myDebts: seq<Transfer>)
    ensures myDebts == Mine(allSettlements, viewer)
  {
    myDebts := [];
    for j := 0 to |allSettlements|
      invariant myDebts == Mine(allSettlements[..j], viewer)
    {
      assert allSettlements[..j + 1] == allSettlements[..j] + [allSettlements[j]];
      MineAppend(allSettlements[..j], allSettlements[j], viewer);
      if allSettlements[j].fromId == viewer {
        myDebts := myDebts + [allSettlements[j]];
      }
    }
    assert allSettlements[..|allSettlements|] == allSettlements;
  }

  /** `handleCloseSettlement` past its guard. */
  method CloseSettlement(participantMap: Dict<string>, totalPaidPerUser: seq<PaidRow>,
                         participants: seq<Participant>, viewer: nat)
    returns (results: seq<Owed>)
    ensures results == PersonalView(participantMap, totalPaidPerUser, participants, viewer)
  {
    var totalPaidPerUserID := LookUpIds(participantMap, totalPaidPerUser);
    var allSettlements := CalculateSettlement(totalPaidPerUserID, participants);
    var myDebts := MyDebts(allSettlements, viewer);
    results := [];
    for k := 0 to |myDebts|
      invariant results == OwedLines(myDebts[..k], participantMap)
    {
      results := results + [Owed(Get(participantMap, myDebts[k].toId), myDebts[k].amount)];
    }
    assert myDebts[..|myDebts|] == myDebts;
  }

  // ---------------------------------------------------------------------------
  // What the lookup and the popup promise.
  // ---------------------------------------------------------------------------

  /** No two participants with different ids share a display name. */
  predicate UniqueNames(participants: seq<Participant>)
  {
    forall j, k :: 0 <= j < |participants| && 0 <= k < |participants|
      && DisplayName(participants[j]) == DisplayName(participants[k])
      ==> participants[j].participantId == participants[k].participantId
  }

  /** The name lookup returns the smallest id showing the name: with duplicate
      names a payment is credited to the participant with the smaller id. */
  lemma LookupSmallestId(participants: seq<Participant>, id: nat)
    requires LastWithId(participants, id).Some?
    ensures var pm := NameMap(participants);
      && IdForName(pm, Get(pm, id)).Some?
      && IdForName(pm, Get(pm, id)).value <= id
      && Get(pm, IdForName(pm, Get(pm, id)).value) == Get(pm, id)
  {
    var pm := NameMap(participants);
    NameMapLaws(participants, id);
    FirstKeyOfSmallest(pm, Get(pm, id).value, id);
  }

  /** With unique display names the lookup inverts the participant map. */
  lemma LookupInvertsNames(participants: seq<Participant>, id: nat)
    requires UniqueNames(participants)
    requires LastWithId(participants, id).Some?
    ensures IdForName(NameMap(participants), Get(NameMap(participants), id)) == Some(id)
  {
    var pm := NameMap(participants);
    NameMapLaws(participants, id);
    var name := Get(pm, id).value;
    forall id' | id' != id
      ensures Get(pm, id') != Some(name)
    {
      NameMapLaws(participants, id');
      if LastWithId(participants, id').Some? {
        var p, q := LastWithId(participants, id').value, LastWithId(participants, id).value;
        var j :| 0 <= j < |participants| && participants[j] == p;
        var k :| 0 <= k < |participants| && participants[k] == q;
      }
    }
    FirstKeyOfUnique(pm, name, id);
  }

  lemma {:induction false} InKeys<V>(d: Dict<V>, i: int)
    requires 0 <= i < |d|
    ensures d[i].0 in Keys(d)
  {
    if i > 0 {
      InKeys(d[1..], i - 1);
    }
  }

  /** Rows that carry the dictionary's own keys look up like the dictionary. */
  lemma {:induction false} PaidOfDict(d: Dict<int>, entries: seq<PaidEntry>, id: nat)
    requires |entries| == |d|
    requires forall i :: 0 <= i < |d| ==> entries[i] == PaidEntry(Some(d[i].0), d[i].1)
    ensures PaidOf(entries, id) == Get(d, id).GetOr(0)
  {
    if d != [] {
      PaidOfDict(d[1..], entries[1..], id);
    }
  }

  /** When every payer is a participant and display names are unique, the
      round trip id → name → id loses nothing: the settlement sees every
      participant's own paid total. */
  lemma PaidEntriesRecoverIds(expenses: seq<Expense>, participants: seq<Participant>, id: nat)
    requires UniqueNames(participants)
    requires forall k :: 0 <= k < |expenses| ==> LastWithId(participants, expenses[k].paidBy).Some?
    ensures var pm := NameMap(participants);
      PaidOf(PaidEntries(pm, PaidRows(PaidMap(expenses), pm)), id) == PaidBy(expenses, id)
  {
    var pm, d := NameMap(participants), PaidMap(expenses);
    var entries := PaidEntries(pm, PaidRows(d, pm));
    forall i | 0 <= i < |d|
      ensures entries[i] == PaidEntry(Some(d[i].0), d[i].1)
    {
      InKeys(d, i);
      PaidMapLaws(expenses, d[i].0);
      var k :| 0 <= k < |expenses| && expenses[k].paidBy == d[i].0;
      LookupInvertsNames(participants, d[i].0);
    }
    PaidOfDict(d, entries, id);
    PaidMapLaws(expenses, id);
    if !IsPayer(expenses, id) {
      PaidByNone(expenses, id);
    }
  }

  function OwedTotal(lines: seq<Owed>): int
  {
    if lines == [] then 0 else lines[0].amount + OwedTotal(lines[1..])
  }

  lemma {:induction false} MineSent(ts: seq<Transfer>, viewer: nat)
    ensures Moved(Mine(ts, viewer)) == Sent(ts, viewer)
    ensures (forall t :: t in ts ==> t.fromId != viewer) ==> Mine(ts, viewer) == []
  {
    if ts != [] {
      var head := if ts[0].fromId == viewer then [ts[0]] else [];
      MineSent(ts[1..], viewer);
      assert forall t :: t in ts[1..] ==> t in ts;
      if head != [] {
        assert (head + Mine(ts[1..], viewer))[1..] == Mine(ts[1..], viewer);
      } else {
        assert head + Mine(ts[1..], viewer) == Mine(ts[1..], viewer);
      }
    }
  }

  lemma {:induction false} OwedLinesTotal(mine: seq<Transfer>, participantMap: Dict<string>)
    ensures OwedTotal(OwedLines(mine, participantMap)) == Moved(mine)
  {
    if mine != [] {
      assert OwedLines(mine, participantMap)[1..] == OwedLines(mine[1..], participantMap);
      OwedLinesTotal(mine[1..], participantMap);
    }
  }

  /** The popup lists what the viewer sends, in total. */
  lemma ViewTotal(participantMap: Dict<string>, rows: seq<PaidRow>,
                  participants: seq<Participant>, viewer: nat)
    ensures OwedTotal(PersonalView(participantMap, rows, participants, viewer))
      == Sent(Settle(PaidEntries(participantMap, rows), participants), viewer)
  {
    var ts := Settle(PaidEntries(participantMap, rows), participants);
    MineSent(ts, viewer);
    OwedLinesTotal(Mine(ts, viewer), participantMap);
  }

  /** A viewer who owes nothing sees an empty popup. */
  lemma ViewEmptyForCreditor(participantMap: Dict<string>, rows: seq<PaidRow>,
                             participants: seq<Participant>, viewer: nat)
    requires forall e :: (e in AdjustedBalances(PaidEntries(participantMap, rows), participants)
                          && e.id == viewer) ==> e.balance >= 0
    ensures PersonalView(participantMap, rows, participants, viewer) == []
  {
    var adj := AdjustedBalances(PaidEntries(participantMap, rows), participants);
    SettleOnlyPayersPay(adj, viewer);
    MineSent(SettleFrom(adj), viewer);
  }

  /** When the adjusted balances add up to zero, a viewer who owes sees lines
      adding up to exactly what they owe. */
  lemma ViewShowsDebt(participantMap: Dict<string>, rows: seq<PaidRow>,
                      participants: seq<Participant>, viewer: nat)
    requires Sum(AdjustedBalances(PaidEntries(participantMap, rows), participants)) == 0
    requires forall e :: (e in AdjustedBalances(PaidEntries(participantMap, rows), participants)
                          && e.id == viewer) ==> e.balance <= 0
    ensures OwedTotal(PersonalView(participantMap, rows, participants, viewer))
      == -SumFor(AdjustedBalances(PaidEntries(participantMap, rows), participants), viewer)
  {
    ViewTotal(participantMap, rows, participants, viewer);
    SettleDebtorPaysDebt(AdjustedBalances(PaidEntries(participantMap, rows), participants), viewer);
  }

  // ---------------------------------------------------------------------------
  // The guards in front of the effects and the popup.
  // ---------------------------------------------------------------------------

  /** `currentUserParticipantId` is truthy: set, and not the id 0. */
  predicate KnownViewer(viewer: Option<nat>)
  {
    viewer.Some? && viewer.value != 0
  }

  /** The gross-debt effect: it recomputes the map only once the expenses are
      loaded and the viewer is known, and otherwise leaves the map as it was. */
  function DebtsEffect(expenses: Option<seq<Expense>>, viewer: Option<nat>,
                       participantMap: Dict<string>, debts: map<string, real>): (r: map<string, real>)
    requires expenses.Some? ==> Shared(expenses.value)
    ensures expenses.None? || !KnownViewer(viewer) ==> r == debts
    ensures expenses.Some? && KnownViewer(viewer) ==>
      forall name :: name in r <==> OwesTo(expenses.value, viewer.value, participantMap, name)
    ensures expenses.Some? && KnownViewer(viewer) ==>
      forall name :: name in r ==> r[name] == DebtTo(expenses.value, viewer.value, participantMap, name)
  {
    if expenses.None? || !KnownViewer(viewer) then debts
    else
      var r := Debts(expenses.value, viewer.value, participantMap);
      forall name
        ensures name in r <==> OwesTo(expenses.value, viewer.value, participantMap, name)
        ensures name in r ==> r[name] == DebtTo(expenses.value, viewer.value, participantMap, name)
      {
        DebtsByName(expenses.value, viewer.value, participantMap, name);
      }
      r
  }

  /** `handleCloseSettlement` with its guard: without the participants or a
      known viewer the popup stays closed (None); otherwise it opens with the
      viewer's lines. The paid list is an array and always passes the guard. */
  function CloseSettlementGuarded(participantMap: Dict<string>, totalPaidPerUser: seq<PaidRow>,
                                  participants: Option<seq<Participant>>, viewer: Option<nat>)
    : (popup: Option<seq<Owed>>)
    ensures popup.Some? <==> participants.Some? && KnownViewer(viewer)
    ensures popup.Some? ==>
      OwedTotal(popup.value) == Sent(Settle(PaidEntries(participantMap, totalPaidPerUser), participants.value), viewer.value)
  {
    if participants.None? || !KnownViewer(viewer) then None
    else
      var lines := PersonalView(participantMap, totalPaidPerUser, participants.value, viewer.value);
      ViewTotal(participantMap, totalPaidPerUser, participants.value, viewer.value);
      Some(lines)
  }
}
