/** `calculateSettlement` of the economy page: one balance per participant,
    the rounded deviation of each from the even per-head share, then a greedy
    two-cursor matching of underpaid participants ("payers") against overpaid
    ones ("receivers"), in list order and without sorting by magnitude. */
module Settlement {
  import opened Common
  import Money

  /** A trip participant as the participants endpoint lists it. */
  datatype Participant = Participant(participantId: nat, userId: nat, username: string)

  /** One row of the paid-per-user list handed to the settlement. `id` is None
      where the reverse name lookup found nobody: `Number(undefined)` is NaN,
      which is equal to no participant id. */
  datatype PaidEntry = PaidEntry(id: Option<nat>, value: int)

  /** A balance in cents: positive = overpaid, negative = underpaid. */
  datatype Entry = Entry(id: nat, balance: int)

  datatype Transfer = Transfer(fromId: nat, toId: nat, amount: int)

  // ---------------------------------------------------------------------------
  // The pure prelude: balances, their total, the adjusted balances, the split.
  // ---------------------------------------------------------------------------

  /** `totalPaidPerUser.find(user => user.id === id)?.value || 0` */
  function PaidOf(paid: seq<PaidEntry>, id: nat): int
  {
    if paid == [] then 0
    else if paid[0].id == Some(id) then paid[0].value
    else PaidOf(paid[1..], id)
  }

  /** The first row carrying the id decides the amount. */
  lemma {:induction false} PaidOfFirst(paid: seq<PaidEntry>, id: nat, k: nat)
    requires k < |paid| && paid[k].id == Some(id)
    requires forall k' :: 0 <= k' < k ==> paid[k'].id != Some(id)
    ensures PaidOf(paid, id) == paid[k].value
  {
    if k > 0 {
      PaidOfFirst(paid[1..], id, k - 1);
    }
  }

  /** A participant without a row has paid 0. */
  lemma {:induction false} PaidOfMissing(paid: seq<PaidEntry>, id: nat)
    requires forall k :: 0 <= k < |paid| ==> paid[k].id != Some(id)
    ensures PaidOf(paid, id) == 0
  {
    if paid != [] {
      PaidOfMissing(paid[1..], id);
    }
  }

  /** One balance per participant, in participant order: what that participant paid. */
  function Balances(paid: seq<PaidEntry>, participants: seq<Participant>): seq<Entry>
  {
    seq(|participants|, k requires 0 <= k < |participants| =>
      Entry(participants[k].participantId, PaidOf(paid, participants[k].participantId)))
  }

  function Sum(es: seq<Entry>): int
  {
    if es == [] then 0 else es[0].balance + Sum(es[1..])
  }

  lemma {:induction false} SumAppend(a: seq<Entry>, b: seq<Entry>)
    ensures Sum(a + b) == Sum(a) + Sum(b)
  {
    if a == [] {
      assert a + b == b;
    } else {
      assert (a + b)[1..] == a[1..] + b;
      SumAppend(a[1..], b);
    }
  }

  /** `Number((p.balance - total / n).toFixed(2))` for every balance, in cents:
      `p.balance - total / n` is `(n * p.balance - total) / n` cents. */
  function Adjusted(bs: seq<Entry>, total: int, n: nat): seq<Entry>
    requires bs != [] ==> n > 0
  {
    seq(|bs|, k requires 0 <= k < |bs| =>
      Entry(bs[k].id, Money.RoundCents(n * bs[k].balance - total, n)))
  }

  /** The adjusted balances `calculateSettlement` computes from its two inputs. */
  function AdjustedBalances(paid: seq<PaidEntry>, participants: seq<Participant>): seq<Entry>
  {
    var bs := Balances(paid, participants);
    Adjusted(bs, Sum(bs), |participants|)
  }

  predicate AllNegative(es: seq<Entry>)
  {
    forall k :: 0 <= k < |es| ==> es[k].balance < 0
  }

  predicate AllPositive(es: seq<Entry>)
  {
    forall k :: 0 <= k < |es| ==> es[k].balance > 0
  }

  /** `adjusted.filter(p => p.balance < 0)` */
  function Payers(adj: seq<Entry>): (ps: seq<Entry>)
    ensures AllNegative(ps)
  {
    if adj == [] then []
    else (if adj[0].balance < 0 then [adj[0]] else []) + Payers(adj[1..])
  }

  /** `adjusted.filter(p => p.balance > 0)` */
  function Receivers(adj: seq<Entry>): (rs: seq<Entry>)
    ensures AllPositive(rs)
  {
    if adj == [] then []
    else (if adj[0].balance > 0 then [adj[0]] else []) + Receivers(adj[1..])
  }

  /** The payers are exactly the entries with a negative balance, the receivers
      exactly those with a positive one; a zero balance is in neither. */
  lemma {:induction false} SplitMembers(adj: seq<Entry>, e: Entry)
    ensures e in Payers(adj) <==> e in adj && e.balance < 0
    ensures e in Receivers(adj) <==> e in adj && e.balance > 0
  {
    if adj != [] {
      SplitMembers(adj[1..], e);
      assert adj == [adj[0]] + adj[1..];
    }
  }

  function Ids(es: seq<Entry>): set<nat>
  {
    set e | e in es :: e.id
  }

  // ---------------------------------------------------------------------------
  // The greedy matcher, as a specification function, and the loop that runs it.
  // ---------------------------------------------------------------------------

  /** What one iteration transfers: `Math.min(-payer.balance, receiver.balance)`. */
  function StepAmount(payers: seq<Entry>, receivers: seq<Entry>): (amount: int)
    requires payers != [] && receivers != []
    requires payers[0].balance < 0 < receivers[0].balance
    ensures 0 < amount
    ensures amount == -payers[0].balance || amount == receivers[0].balance
    ensures amount <= -payers[0].balance && amount <= receivers[0].balance
  {
    Min(-payers[0].balance, receivers[0].balance)
  }

  /** The payer list after its head has paid `amount`: the head stays with the
      reduced debt, or the cursor moves past it once the debt is zero (the
      `< 0.01` test, over whole cents). */
  function PayersAfter(payers: seq<Entry>, amount: int): (ps: seq<Entry>)
    requires AllNegative(payers) && payers != [] && 0 < amount <= -payers[0].balance
    ensures AllNegative(ps)
    ensures |ps| <= |payers|
    ensures amount == -payers[0].balance <==> |ps| < |payers|
  {
    var head := Entry(payers[0].id, payers[0].balance + amount);
    if head.balance == 0 then payers[1..]
    else
      assert ([head] + payers[1..])[1..] == payers[1..];
      [head] + payers[1..]
  }

  /** The receiver list after its head has received `amount`. */
  function ReceiversAfter(receivers: seq<Entry>, amount: int): (rs: seq<Entry>)
    requires AllPositive(receivers) && receivers != [] && 0 < amount <= receivers[0].balance
    ensures AllPositive(rs)
    ensures |rs| <= |receivers|
    ensures amount == receivers[0].balance <==> |rs| < |receivers|
  {
    var head := Entry(receivers[0].id, receivers[0].balance - amount);
    if head.balance == 0 then receivers[1..]
    else
      assert ([head] + receivers[1..])[1..] == receivers[1..];
      [head] + receivers[1..]
  }

  /** One iteration moves `amount` out of the head payer's debt and the head
      receiver's credit, and changes no other balance. */
  lemma StepSums(payers: seq<Entry>, receivers: seq<Entry>, amount: int, id: nat)
    requires AllNegative(payers) && payers != [] && 0 < amount <= -payers[0].balance
    requires AllPositive(receivers) && receivers != [] && 0 < amount <= receivers[0].balance
    ensures Sum(PayersAfter(payers, amount)) == Sum(payers) + amount
    ensures SumFor(PayersAfter(payers, amount), id)
      == SumFor(payers, id) + (if payers[0].id == id then amount else 0)
    ensures Sum(ReceiversAfter(receivers, amount)) == Sum(receivers) - amount
    ensures SumFor(ReceiversAfter(receivers, amount), id)
      == SumFor(receivers, id) - (if receivers[0].id == id then amount else 0)
  {
    var ps, rs := PayersAfter(payers, amount), ReceiversAfter(receivers, amount);
    if |ps| == |payers| {
      assert ps[1..] == payers[1..];
    }
    if |rs| == |receivers| {
      assert rs[1..] == receivers[1..];
    }
  }

  /** The two-cursor loop, one iteration per call: the head payer pays the head
      receiver `min(owed, credit)`, and a side whose balance reaches zero is
      dropped. */
  function Match(payers: seq<Entry>, receivers: seq<Entry>): (ts: seq<Transfer>)
    requires AllNegative(payers) && AllPositive(receivers)
    ensures |ts| <= |payers| + |receivers|
    decreases |payers| + |receivers|
  {
    if payers == [] || receivers == [] then []
    else
      var amount := StepAmount(payers, receivers);
      [Transfer(payers[0].id, receivers[0].id, amount)]
        + Match(PayersAfter(payers, amount), ReceiversAfter(receivers, amount))
  }

  lemma MatchStep(payers: seq<Entry>, receivers: seq<Entry>)
    requires AllNegative(payers) && AllPositive(receivers)
    requires payers != [] && receivers != []
    ensures var amount := StepAmount(payers, receivers);
      Match(payers, receivers) == [Transfer(payers[0].id, receivers[0].id, amount)]
        + Match(PayersAfter(payers, amount), ReceiversAfter(receivers, amount))
  {
  }

  /** The matcher run on the split of a list of adjusted balances. */
  function SettleFrom(adj: seq<Entry>): seq<Transfer>
  {
    Match(Payers(adj), Receivers(adj))
  }

  /** What `calculateSettlement(paid, participants)` returns. */
  function Settle(paid: seq<PaidEntry>, participants: seq<Participant>): seq<Transfer>
  {
    SettleFrom(AdjustedBalances(paid, participants))
  }

  method CalculateSettlement(paid: seq<PaidEntry>, participants: seq<Participant>)
    returns (settlements: seq<Transfer>)
    ensures settlements == Settle(paid, participants)
  {
    var balances := Balances(paid, participants);

    var total := 0;
    for k := 0 to |balances|
      invariant total == Sum(balances[..k])
    {
      assert balances[..k + 1] == balances[..k] + [balances[k]];
      SumAppend(balances[..k], [balances[k]]);
      total := total + balances[k].balance;
    }
    assert balances[..|balances|] == balances;

    var adjusted := Adjusted(balances, total, |participants|);
    settlements := MatchGreedily(Payers(adjusted), Receivers(adjusted));
  }

  /** The `while` loop of `calculateSettlement`, over copies of the payer and
      receiver records whose balances it updates in place. */
  method MatchGreedily(payerList: seq<Entry>, receiverList: seq<Entry>)
    returns (settlements: seq<Transfer>)
    requires AllNegative(payerList) && AllPositive(receiverList)
    ensures settlements == Match(payerList, receiverList)
  {
    // `{ ...p }`: the loop updates its own copies of the records
    var payers, receivers := payerList, receiverList;
    settlements := [];
    var i, j := 0, 0;
    CursorsInit(payerList, receiverList);
    while i < |payers| && j < |receivers|
      invariant Cursors(payerList, receiverList, payers, receivers, i, j, settlements)
      decreases |payers| - i + |receivers| - j
    {
      ghost var (payers0, receivers0, i0, j0, done) := (payers, receivers, i, j, settlements);
      var payer, receiver := payers[i], receivers[j];
      var amount := Min(-payer.balance, receiver.balance);
      settlements := settlements + [Transfer(payer.id, receiver.id, amount)];
      payer := payer.(balance := payer.balance + amount);
      receiver := receiver.(balance := receiver.balance - amount);
      payers := payers[i := payer];
      receivers := receivers[j := receiver];
      // the `< 0.01` test: below one cent means zero
      if payer.balance == 0 {
        i := i + 1;
      }
      if receiver.balance == 0 {
        j := j + 1;
      }
      CursorsStep(payerList, receiverList, payers0, receivers0, i0, j0, done,
                  payers, receivers, i, j, settlements);
    }
    CursorsDone(payerList, receiverList, payers, receivers, i, j, settlements);
  }

  lemma CursorsInit(payerList: seq<Entry>, receiverList: seq<Entry>)
    requires AllNegative(payerList) && AllPositive(receiverList)
    ensures Cursors(payerList, receiverList, payerList, receiverList, 0, 0, [])
  {
    assert payerList[0..] == payerList && receiverList[0..] == receiverList;
  }

  /** Once a cursor has run off its list, the transfers made are all of Match. */
  lemma CursorsDone(payerList: seq<Entry>, receiverList: seq<Entry>,
                    payers: seq<Entry>, receivers: seq<Entry>, i: int, j: int,
                    settlements: seq<Transfer>)
    requires Cursors(payerList, receiverList, payers, receivers, i, j, settlements)
    requires i >= |payers| || j >= |receivers|
    ensures settlements == Match(payerList, receiverList)
  {
    assert payers[i..] == [] || receivers[j..] == [];
  }

  /** The loop invariant: the transfers made so far, followed by what Match
      does with the remaining payers and receivers, are what Match does with
      the whole lists. */
  predicate Cursors(payerList: seq<Entry>, receiverList: seq<Entry>,
                    payers: seq<Entry>, receivers: seq<Entry>, i: int, j: int,
                    settlements: seq<Transfer>)
  {
    && |payers| == |payerList| && |receivers| == |receiverList|
    && 0 <= i <= |payers| && 0 <= j <= |receivers|
    && AllNegative(payers[i..]) && AllPositive(receivers[j..])
    && AllNegative(payerList) && AllPositive(receiverList)
    && settlements + Match(payers[i..], receivers[j..]) == Match(payerList, receiverList)
  }

  /** One iteration of the `while` loop keeps the invariant and moves a cursor. */
  lemma CursorsStep(payerList: seq<Entry>, receiverList: seq<Entry>,
                    payers: seq<Entry>, receivers: seq<Entry>, i: int, j: int,
                    settlements: seq<Transfer>,
                    payers': seq<Entry>, receivers': seq<Entry>, i': int, j': int,
                    settlements': seq<Transfer>)
    requires Cursors(payerList, receiverList, payers, receivers, i, j, settlements)
    requires i < |payers| && j < |receivers|
    requires var amount := Min(-payers[i].balance, receivers[j].balance);
      && settlements' == settlements + [Transfer(payers[i].id, receivers[j].id, amount)]
      && payers' == payers[i := payers[i].(balance := payers[i].balance + amount)]
      && receivers' == receivers[j := receivers[j].(balance := receivers[j].balance - amount)]
      && i' == (if payers'[i].balance == 0 then i + 1 else i)
      && j' == (if receivers'[j].balance == 0 then j + 1 else j)
    ensures Cursors(payerList, receiverList, payers', receivers', i', j', settlements')
    ensures i' + j' > i + j
  {
    var ps, rs := payers[i..], receivers[j..];
    var amount := Min(-payers[i].balance, receivers[j].balance);
    LoopStep(settlements, ps, rs);
    PayerCursor(payers, i, amount, payers', i');
    ReceiverCursor(receivers, j, amount, receivers', j');
  }

  /** Paying `amount` from the payer under the cursor leaves, from the new
      cursor on, the payer list of one Match step. */
  lemma PayerCursor(payers: seq<Entry>, i: int, amount: int, payers': seq<Entry>, i': int)
    requires 0 <= i < |payers| && AllNegative(payers[i..])
    requires 0 < amount <= -payers[i].balance
    requires payers' == payers[i := payers[i].(balance := payers[i].balance + amount)]
    requires i' == (if payers'[i].balance == 0 then i + 1 else i)
    ensures |payers'| == |payers| && i <= i' <= |payers'|
    ensures payers'[i'..] == PayersAfter(payers[i..], amount)
    ensures i' == i + 1 <==> amount == -payers[i].balance
  {
    assert payers[i..][1..] == payers'[i + 1..];
    assert payers'[i..] == [payers'[i]] + payers[i..][1..];
  }

  /** Paying `amount` to the receiver under the cursor leaves, from the new
      cursor on, the receiver list of one Match step. */
  lemma ReceiverCursor(receivers: seq<Entry>, j: int, amount: int, receivers': seq<Entry>, j': int)
    requires 0 <= j < |receivers| && AllPositive(receivers[j..])
    requires 0 < amount <= receivers[j].balance
    requires receivers' == receivers[j := receivers[j].(balance := receivers[j].balance - amount)]
    requires j' == (if receivers'[j].balance == 0 then j + 1 else j)
    ensures |receivers'| == |receivers| && j <= j' <= |receivers'|
    ensures receivers'[j'..] == ReceiversAfter(receivers[j..], amount)
    ensures j' == j + 1 <==> amount == receivers[j].balance
  {
    assert receivers[j..][1..] == receivers'[j + 1..];
    assert receivers'[j..] == [receivers'[j]] + receivers[j..][1..];
  }

  /** One iteration of the `while` loop is one unfolding of Match. */
  lemma LoopStep(done: seq<Transfer>, ps: seq<Entry>, rs: seq<Entry>)
    requires AllNegative(ps) && AllPositive(rs) && ps != [] && rs != []
    ensures StepAmount(ps, rs) == Min(-ps[0].balance, rs[0].balance)
    ensures var amount := StepAmount(ps, rs);
      (done + [Transfer(ps[0].id, rs[0].id, amount)])
        + Match(PayersAfter(ps, amount), ReceiversAfter(rs, amount))
      == done + Match(ps, rs)
  {
    var amount := StepAmount(ps, rs);
    var t := Transfer(ps[0].id, rs[0].id, amount);
    var ps', rs' := PayersAfter(ps, amount), ReceiversAfter(rs, amount);
    MatchStep(ps, rs);
    assert Match(ps, rs) == [t] + Match(ps', rs');
    assert (done + [t]) + Match(ps', rs') == done + ([t] + Match(ps', rs'));
  }

  // ---------------------------------------------------------------------------
  // Flows: what each transfer list moves, per participant id.
  // ---------------------------------------------------------------------------

  /** The sum of the balances of the entries carrying `id`. */
  function SumFor(es: seq<Entry>, id: nat): int
  {
    if es == [] then 0
    else (if es[0].id == id then es[0].balance else 0) + SumFor(es[1..], id)
  }

  /** Total sent by `id`. */
  function Sent(ts: seq<Transfer>, id: nat): int
  {
    if ts == [] then 0
    else (if ts[0].fromId == id then ts[0].amount else 0) + Sent(ts[1..], id)
  }

  /** Total received by `id`. */
  function Received(ts: seq<Transfer>, id: nat): int
  {
    if ts == [] then 0
    else (if ts[0].toId == id then ts[0].amount else 0) + Received(ts[1..], id)
  }

  /** Total moved by all transfers. */
  function Moved(ts: seq<Transfer>): int
  {
    if ts == [] then 0 else ts[0].amount + Moved(ts[1..])
  }

  lemma {:induction false} NegativeSums(es: seq<Entry>, id: nat)
    requires AllNegative(es)
    ensures Sum(es) <= SumFor(es, id) <= 0
    ensures es != [] ==> Sum(es) < 0
  {
    if es != [] {
      NegativeSums(es[1..], id);
    }
  }

  lemma {:induction false} PositiveSums(es: seq<Entry>, id: nat)
    requires AllPositive(es)
    ensures 0 <= SumFor(es, id) <= Sum(es)
    ensures es != [] ==> Sum(es) > 0
  {
    if es != [] {
      PositiveSums(es[1..], id);
    }
  }

  /** Each payer sends at most what it owes and each receiver gets at most its
      credit; when the credits do not exceed the debts every receiver is paid in
      full, and when the debts do not exceed the credits every payer is drained. */
  lemma {:induction false} MatchFlows(payers: seq<Entry>, receivers: seq<Entry>, id: nat)
    requires AllNegative(payers) && AllPositive(receivers)
    ensures Sent(Match(payers, receivers), id) <= -SumFor(payers, id)
    ensures Received(Match(payers, receivers), id) <= SumFor(receivers, id)
    ensures Sum(receivers) <= -Sum(payers) ==>
      Received(Match(payers, receivers), id) == SumFor(receivers, id)
    ensures -Sum(payers) <= Sum(receivers) ==>
      Sent(Match(payers, receivers), id) == -SumFor(payers, id)
    decreases |payers| + |receivers|
  {
    NegativeSums(payers, id);
    PositiveSums(receivers, id);
    if payers != [] && receivers != [] {
      var amount := StepAmount(payers, receivers);
      var t := Transfer(payers[0].id, receivers[0].id, amount);
      var rest := Match(PayersAfter(payers, amount), ReceiversAfter(receivers, amount));
      assert ([t] + rest)[1..] == rest;
      StepSums(payers, receivers, amount, id);
      MatchFlows(PayersAfter(payers, amount), ReceiversAfter(receivers, amount), id);
    }
  }

  /** The matcher moves exactly the smaller of the total debt and the total credit. */
  lemma {:induction false} MatchMoves(payers: seq<Entry>, receivers: seq<Entry>)
    requires AllNegative(payers) && AllPositive(receivers)
    ensures Moved(Match(payers, receivers)) == Min(-Sum(payers), Sum(receivers))
    decreases |payers| + |receivers|
  {
    NegativeSums(payers, 0);
    PositiveSums(receivers, 0);
    if payers != [] && receivers != [] {
      var amount := StepAmount(payers, receivers);
      var t := Transfer(payers[0].id, receivers[0].id, amount);
      var rest := Match(PayersAfter(payers, amount), ReceiversAfter(receivers, amount));
      assert ([t] + rest)[1..] == rest;
      StepSums(payers, receivers, amount, 0);
      MatchMoves(PayersAfter(payers, amount), ReceiversAfter(receivers, amount));
    }
  }

  /** Splitting into payers and receivers loses nothing but zero balances. */
  lemma {:induction false} SplitSums(adj: seq<Entry>, id: nat)
    ensures Sum(adj) == Sum(Payers(adj)) + Sum(Receivers(adj))
    ensures SumFor(adj, id) == SumFor(Payers(adj), id) + SumFor(Receivers(adj), id)
  {
    if adj != [] {
      SplitSums(adj[1..], id);
      var head := if adj[0].balance < 0 then [adj[0]] else [];
      var tail := Payers(adj[1..]);
      assert Payers(adj) == head + tail;
      if head != [] {
        assert (head + tail)[1..] == tail;
      } else {
        assert head + tail == tail;
      }
      var head' := if adj[0].balance > 0 then [adj[0]] else [];
      var tail' := Receivers(adj[1..]);
      assert Receivers(adj) == head' + tail';
      if head' != [] {
        assert (head' + tail')[1..] == tail';
      } else {
        assert head' + tail' == tail';
      }
    }
  }

  // ---------------------------------------------------------------------------
  // Properties of the whole settlement.
  // ---------------------------------------------------------------------------

  /** When the adjusted balances add up to zero, applying the transfers
      (`payer.balance += amount`, `receiver.balance -= amount`) brings every
      participant's balance to exactly zero. */
  lemma SettleDrains(adj: seq<Entry>, id: nat)
    requires Sum(adj) == 0
    ensures SumFor(adj, id) + Sent(SettleFrom(adj), id) - Received(SettleFrom(adj), id) == 0
  {
    SplitSums(adj, id);
    MatchFlows(Payers(adj), Receivers(adj), id);
  }

  /** One adjusted balance per participant, in participant order, and each
      depends only on the participant's id: what that id paid less the
      per-head average, rounded to the cent. */
  lemma AdjustedByIdOnly(paid: seq<PaidEntry>, participants: seq<Participant>)
    ensures |AdjustedBalances(paid, participants)| == |participants|
    ensures forall k :: 0 <= k < |participants| ==>
      AdjustedBalances(paid, participants)[k].id == participants[k].participantId
    ensures var n, total := |participants|, Sum(Balances(paid, participants));
      forall e :: e in AdjustedBalances(paid, participants) ==>
        n > 0 && e.balance == Money.RoundCents(n * PaidOf(paid, e.id) - total, n)
  {
  }

  /** Rounding each share to the cent moves each adjusted balance by at most
      half a cent: `n` times their sum stays within `n * |bs| / 2` of the exact
      `n * Sum(bs) - |bs| * total`. */
  lemma {:induction false} AdjustedError(bs: seq<Entry>, total: int, n: int)
    requires n > 0
    ensures -n * |bs| <= 2 * (n * Sum(Adjusted(bs, total, n)) - (n * Sum(bs) - |bs| * total)) <= n * |bs|
  {
    if bs != [] {
      var adj := Adjusted(bs, total, n);
      assert adj[1..] == Adjusted(bs[1..], total, n);
      AdjustedError(bs[1..], total, n);
      var r, b := adj[0].balance, bs[0].balance;
      ErrorSplit(n, r, Sum(adj[1..]), b, Sum(bs[1..]), |bs| - 1, total);
      ErrorBound(n, |bs|, n * r - (n * b - total),
        n * Sum(adj[1..]) - (n * Sum(bs[1..]) - (|bs| - 1) * total));
    }
  }

  lemma ErrorSplit(n: int, r: int, sa: int, b: int, sb: int, len: int, total: int)
    ensures n * (r + sa) - (n * (b + sb) - (len + 1) * total)
      == (n * r - (n * b - total)) + (n * sa - (n * sb - len * total))
  {
  }

  lemma ErrorBound(n: int, len: int, d: int, rest: int)
    requires len >= 1
    requires -n <= 2 * d <= n
    requires -n * (len - 1) <= 2 * rest <= n * (len - 1)
    ensures -n * len <= 2 * (d + rest) <= n * len
  {
    assert n * len == n + n * (len - 1);
  }

  /** The adjusted balances of all participants add up to zero up to the
      rounding: at most half a cent per participant either way. */
  lemma SettleResidue(paid: seq<PaidEntry>, participants: seq<Participant>)
    ensures -|participants| <= 2 * Sum(AdjustedBalances(paid, participants)) <= |participants|
  {
    AdjustedResidue(Balances(paid, participants));
  }

  lemma AdjustedResidue(bs: seq<Entry>)
    ensures -|bs| <= 2 * Sum(Adjusted(bs, Sum(bs), |bs|)) <= |bs|
  {
    if bs != [] {
      var n, s := |bs|, Sum(Adjusted(bs, Sum(bs), |bs|));
      AdjustedError(bs, Sum(bs), n);
      ScaleDown(n, s, Sum(bs));
    }
  }

  lemma ScaleDown(n: int, s: int, t: int)
    requires n > 0 && -n * n <= 2 * (n * s - (n * t - n * t)) <= n * n
    ensures -n <= 2 * s <= n
  {
    assert 2 * (n * s) - n * n == n * (2 * s - n);
    assert 2 * (n * s) + n * n == n * (2 * s + n);
  }

  /** When the total is a whole number of cents per head, every share is exact
      and each adjusted balance is what was paid minus that share. */
  lemma {:induction false} AdjustedExact(bs: seq<Entry>, share: int, n: nat)
    requires n > 0
    ensures Sum(Adjusted(bs, n * share, n)) == Sum(bs) - |bs| * share
  {
    if bs != [] {
      var adj := Adjusted(bs, n * share, n);
      assert adj[1..] == Adjusted(bs[1..], n * share, n);
      AdjustedExact(bs[1..], share, n);
      ExactShare(bs[0].balance, share, n);
      assert |bs| * share == share + (|bs| - 1) * share;
    }
  }

  lemma ExactShare(b: int, share: int, n: int)
    requires n > 0
    ensures Money.RoundCents(n * b - n * share, n) == b - share
  {
    assert n * b - n * share == n * (b - share);
    Money.RoundCentsExact(b - share, n);
  }

  lemma SettleExact(paid: seq<PaidEntry>, participants: seq<Participant>)
    requires |participants| > 0
    requires Sum(Balances(paid, participants)) % |participants| == 0
    ensures Sum(AdjustedBalances(paid, participants)) == 0
  {
    var bs, n := Balances(paid, participants), |participants|;
    var share := Sum(bs) / n;
    assert Sum(bs) == n * share;
    AdjustedExact(bs, share, n);
  }

  /** Two entries with the same id carry the same balance. */
  predicate ConsistentIds(adj: seq<Entry>)
  {
    forall a, b :: a in adj && b in adj && a.id == b.id ==> a.balance == b.balance
  }

  lemma AdjustedConsistent(paid: seq<PaidEntry>, participants: seq<Participant>)
    ensures ConsistentIds(AdjustedBalances(paid, participants))
  {
    AdjustedByIdOnly(paid, participants);
  }

  /** Nobody is told to pay themselves, and every amount is positive. */
  lemma SettleNoSelfTransfer(adj: seq<Entry>)
    requires ConsistentIds(adj)
    ensures forall t :: t in SettleFrom(adj) ==> t.fromId != t.toId && t.amount > 0
  {
    MatchEndpoints(Payers(adj), Receivers(adj));
    forall t | t in SettleFrom(adj)
      ensures t.fromId != t.toId
    {
      var e1 :| e1 in Payers(adj) && e1.id == t.fromId;
      var e2 :| e2 in Receivers(adj) && e2.id == t.toId;
      SplitMembers(adj, e1);
      SplitMembers(adj, e2);
    }
  }

  /** Whoever has no negative adjusted balance is never told to pay. */
  lemma SettleOnlyPayersPay(adj: seq<Entry>, id: nat)
    requires forall e :: e in adj && e.id == id ==> e.balance >= 0
    ensures forall t :: t in SettleFrom(adj) ==> t.fromId != id
  {
    MatchEndpoints(Payers(adj), Receivers(adj));
    forall t | t in SettleFrom(adj)
      ensures t.fromId != id
    {
      var e :| e in Payers(adj) && e.id == t.fromId;
      SplitMembers(adj, e);
    }
  }

  /** Whoever has no positive adjusted balance is never paid. */
  lemma SettleOnlyReceiversReceive(adj: seq<Entry>, id: nat)
    requires forall e :: e in adj && e.id == id ==> e.balance <= 0
    ensures forall t :: t in SettleFrom(adj) ==> t.toId != id
  {
    MatchEndpoints(Payers(adj), Receivers(adj));
    forall t | t in SettleFrom(adj)
      ensures t.toId != id
    {
      var e :| e in Receivers(adj) && e.id == t.toId;
      SplitMembers(adj, e);
    }
  }

  lemma {:induction false} ReceivedNone(ts: seq<Transfer>, id: nat)
    requires forall t :: t in ts ==> t.toId != id
    ensures Received(ts, id) == 0
  {
    if ts != [] {
      assert ts[0] in ts;
      assert forall t :: t in ts[1..] ==> t in ts;
      ReceivedNone(ts[1..], id);
    }
  }

  /** When the adjusted balances add up to zero, a participant who owes pays
      exactly what they owe, in total over all their transfers. */
  lemma SettleDebtorPaysDebt(adj: seq<Entry>, id: nat)
    requires Sum(adj) == 0
    requires forall e :: e in adj && e.id == id ==> e.balance <= 0
    ensures Sent(SettleFrom(adj), id) == -SumFor(adj, id)
  {
    SettleDrains(adj, id);
    SettleOnlyReceiversReceive(adj, id);
    ReceivedNone(SettleFrom(adj), id);
  }

  /** The balances, and so the settlement, depend on the participants' ids only. */
  lemma SettleByIds(paid: seq<PaidEntry>, ps: seq<Participant>, qs: seq<Participant>)
    requires |ps| == |qs|
    requires forall k :: 0 <= k < |ps| ==> ps[k].participantId == qs[k].participantId
    ensures AdjustedBalances(paid, ps) == AdjustedBalances(paid, qs)
    ensures Settle(paid, ps) == Settle(paid, qs)
  {
    assert Balances(paid, ps) == Balances(paid, qs);
  }

  /** Every transfer of the matcher is positive, from a payer to a receiver. */
  lemma {:induction false} MatchEndpoints(payers: seq<Entry>, receivers: seq<Entry>)
    requires AllNegative(payers) && AllPositive(receivers)
    ensures forall t :: t in Match(payers, receivers) ==>
      t.amount > 0 && t.fromId in Ids(payers) && t.toId in Ids(receivers)
    decreases |payers| + |receivers|
  {
    if payers != [] && receivers != [] {
      var amount := StepAmount(payers, receivers);
      var ps, rs := PayersAfter(payers, amount), ReceiversAfter(receivers, amount);
      MatchStep(payers, receivers);
      MatchEndpoints(ps, rs);
      AfterIds(payers, receivers, amount);
      assert payers[0] in payers && receivers[0] in receivers;
    }
  }

  /** One step keeps only ids that were already on each side. */
  lemma AfterIds(payers: seq<Entry>, receivers: seq<Entry>, amount: int)
    requires AllNegative(payers) && payers != [] && 0 < amount <= -payers[0].balance
    requires AllPositive(receivers) && receivers != [] && 0 < amount <= receivers[0].balance
    ensures Ids(PayersAfter(payers, amount)) <= Ids(payers)
    ensures Ids(ReceiversAfter(receivers, amount)) <= Ids(receivers)
  {
    assert payers[0] in payers && receivers[0] in receivers;
    forall e | e in payers[1..] ensures e in payers { }
    forall e | e in receivers[1..] ensures e in receivers { }
  }

  /** At most one transfer per payer plus one per receiver. */
  lemma SettleLength(adj: seq<Entry>)
    ensures |SettleFrom(adj)| <= |Payers(adj)| + |Receivers(adj)| <= |adj|
  {
    PartitionLength(adj);
  }

  lemma {:induction false} PartitionLength(adj: seq<Entry>)
    ensures |Payers(adj)| + |Receivers(adj)| <= |adj|
  {
    if adj != [] {
      PartitionLength(adj[1..]);
    }
  }

  // ---------------------------------------------------------------------------
  // Worked examples.
  // ---------------------------------------------------------------------------

  const Trio := [Participant(1, 11, "A"), Participant(2, 12, "B"), Participant(3, 13, "C")]

  /** The split and the sum of a list, one entry at a time. */
  lemma Cons(e: Entry, rest: seq<Entry>)
    ensures Sum([e] + rest) == e.balance + Sum(rest)
    ensures Payers([e] + rest) == (if e.balance < 0 then [e] else []) + Payers(rest)
    ensures Receivers([e] + rest) == (if e.balance > 0 then [e] else []) + Receivers(rest)
  {
    assert ([e] + rest)[1..] == rest;
  }

  /** The split of three adjusted balances, the first positive, the others negative. */
  lemma SplitTrio(a: Entry, b: Entry, c: Entry)
    requires a.balance > 0 && b.balance < 0 && c.balance < 0
    ensures Payers([a, b, c]) == [b, c] && Receivers([a, b, c]) == [a]
  {
    Cons(c, []);
    Cons(b, [c]);
    assert [b, c] == [b] + [c];
    Cons(a, [b, c]);
    assert [a, b, c] == [a] + [b, c];
  }

  /** Two payers drained in turn against one receiver whose credit covers both. */
  lemma MatchTwoPayers(b: Entry, c: Entry, a: Entry)
    requires b.balance < 0 && c.balance < 0 && -b.balance - c.balance <= a.balance
    ensures Match([b, c], [a]) == [Transfer(b.id, a.id, -b.balance), Transfer(c.id, a.id, -c.balance)]
  {
    var a' := Entry(a.id, a.balance + b.balance);
    MatchStep([b, c], [a]);
    assert PayersAfter([b, c], -b.balance) == [c];
    assert ReceiversAfter([a], -b.balance) == [a'];
    MatchStep([c], [a']);
    assert PayersAfter([c], -c.balance) == [];
  }

  lemma SumTrio(a: Entry, b: Entry, c: Entry)
    ensures Sum([a, b, c]) == a.balance + b.balance + c.balance
  {
    assert [c][1..] == [];
    assert Sum([c]) == c.balance;
    assert [b, c][1..] == [c];
    assert Sum([b, c]) == b.balance + c.balance;
    assert [a, b, c][1..] == [b, c];
  }

  /** The balances of three participants with ids 1, 2 and 3. */
  lemma TrioBalancesOf(paid: seq<PaidEntry>, a: int, b: int, c: int)
    requires PaidOf(paid, 1) == a && PaidOf(paid, 2) == b && PaidOf(paid, 3) == c
    ensures Balances(paid, Trio) == [Entry(1, a), Entry(2, b), Entry(3, c)]
    ensures Sum(Balances(paid, Trio)) == a + b + c
  {
    SumTrio(Entry(1, a), Entry(2, b), Entry(3, c));
  }

  /** A alone has paid `v` cents. */
  lemma TrioBalances(v: int)
    ensures Balances([PaidEntry(Some(1), v)], Trio) == [Entry(1, v), Entry(2, 0), Entry(3, 0)]
    ensures Sum(Balances([PaidEntry(Some(1), v)], Trio)) == v
  {
    var paid := [PaidEntry(Some(1), v)];
    assert paid[1..] == [];
    assert PaidOf(paid, 1) == v && PaidOf(paid, 2) == 0 && PaidOf(paid, 3) == 0;
    TrioBalancesOf(paid, v, 0, 0);
  }

  /** A alone pays for all three, three shares of `share` cents: A is owed
      two shares and B and C owe one each ... */
  lemma OnePaysAdjusted(share: int)
    ensures AdjustedBalances([PaidEntry(Some(1), 3 * share)], Trio)
      == [Entry(1, 2 * share), Entry(2, -share), Entry(3, -share)]
  {
    TrioBalances(3 * share);
    ExactShare(3 * share, share, 3);
    ExactShare(0, share, 3);
  }

  /** ... and B then C each pay their share to A, in payer order. */
  lemma OnePays(share: int)
    requires share > 0
    ensures Settle([PaidEntry(Some(1), 3 * share)], Trio) == [Transfer(2, 1, share), Transfer(3, 1, share)]
  {
    OnePaysAdjusted(share);
    var adj := AdjustedBalances([PaidEntry(Some(1), 3 * share)], Trio);
    SplitTrio(adj[0], adj[1], adj[2]);
    MatchTwoPayers(adj[1], adj[2], adj[0]);
  }

  /** A pays 90.00 for all three: B and C owe 30.00 each and pay it to A. */
  lemma WorkedExample()
    ensures Settle([PaidEntry(Some(1), 9000)], Trio) == [Transfer(2, 1, 3000), Transfer(3, 1, 3000)]
  {
    OnePays(3000);
  }

  /** A pays 1.00 for all three: the shares round to +0.67, -0.33 and -0.33,
      which add up to one cent. */
  lemma RoundingAdjusted()
    ensures AdjustedBalances([PaidEntry(Some(1), 100)], Trio)
      == [Entry(1, 67), Entry(2, -33), Entry(3, -33)]
    ensures Sum(AdjustedBalances([PaidEntry(Some(1), 100)], Trio)) == 1
  {
    TrioBalances(100);
    assert Money.RoundCents(200, 3) == 67;
    assert Money.RoundCents(-100, 3) == -33;
    SumTrio(Entry(1, 67), Entry(2, -33), Entry(3, -33));
  }

  /** ... B and C pay 0.33 each, and the cent the rounding created stays with A. */
  lemma RoundingExample()
    ensures Settle([PaidEntry(Some(1), 100)], Trio) == [Transfer(2, 1, 33), Transfer(3, 1, 33)]
  {
    RoundingAdjusted();
    var adj := AdjustedBalances([PaidEntry(Some(1), 100)], Trio);
    SplitTrio(adj[0], adj[1], adj[2]);
    MatchTwoPayers(adj[1], adj[2], adj[0]);
  }

  /** A single participant owes nobody anything. */
  lemma SettleSingle(paid: seq<PaidEntry>, p: Participant)
    ensures AdjustedBalances(paid, [p]) == [Entry(p.participantId, 0)]
    ensures Settle(paid, [p]) == []
  {
    var bs := Balances(paid, [p]);
    assert Sum(bs) == bs[0].balance;
    assert 1 * bs[0].balance - Sum(bs) == 1 * 0;
    Money.RoundCentsExact(0, 1);
    var adj := AdjustedBalances(paid, [p]);
    assert Payers(adj) == [] && Receivers(adj) == [];
  }

  /** Without participants there are no balances and no transfers: the average
      over zero participants is never used. */
  lemma SettleNobody(paid: seq<PaidEntry>)
    ensures Settle(paid, []) == []
  {
    assert Payers([]) == [] && Receivers([]) == [];
  }
}
