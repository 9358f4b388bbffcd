/** Concrete scenarios of the economy page: the gross "YOU OWE" view and the
    netted settlement disagree, duplicate display names merge debts and
    misdirect payments, and the gross view ignores who an expense was shared
    between. */
module EconomyExamples {
  import opened Common
  import opened JsObject
  import opened Settlement
  import opened Economy

  /** Trio's participant map: ids 1, 2, 3 shown as "A", "B", "C". */
  lemma TrioNames()
    ensures NameMap(Trio) == [(1, "A"), (2, "B"), (3, "C")]
  {
    assert Front(Trio) == [Trio[0], Trio[1]];
    assert Front([Trio[0], Trio[1]]) == [Trio[0]];
    assert Front([Trio[0]]) == [];
    assert NameMap([Trio[0]]) == [(1, "A")];
    assert [(1, "A")][1..] == [];
    assert NameMap([Trio[0], Trio[1]]) == [(1, "A"), (2, "B")];
  }

  const Sams := [Participant(1, 11, "Sam"), Participant(2, 12, "Sam"), Participant(3, 13, "Kim")]

  /** Two participants named "Sam" keep their own ids in the participant map. */
  lemma SamNames()
    ensures NameMap(Sams) == [(1, "Sam"), (2, "Sam"), (3, "Kim")]
  {
    assert Front(Sams) == [Sams[0], Sams[1]];
    assert Front([Sams[0], Sams[1]]) == [Sams[0]];
    assert Front([Sams[0]]) == [];
    assert NameMap([Sams[0]]) == [(1, "Sam")];
    assert [(1, "Sam")][1..] == [];
    assert NameMap([Sams[0], Sams[1]]) == [(1, "Sam"), (2, "Sam")];
  }

  // ---------------------------------------------------------------------------
  // A pays 30.00 for everyone, B pays 60.00 for everyone; A is the viewer.
  // ---------------------------------------------------------------------------

  const Reciprocal := [Expense(1, 3000, [1, 2, 3]), Expense(2, 6000, [1, 2, 3])]

  /** The gross view says A owes B a third of B's expense, 20.00 ... */
  lemma ReciprocalGross()
    ensures Debts(Reciprocal, 1, NameMap(Trio)) == map["B" := 2000.0]
  {
    TrioNames();
    assert Front(Reciprocal) == [Reciprocal[0]];
    assert Front([Reciprocal[0]]) == [];
    assert Debts([Reciprocal[0]], 1, NameMap(Trio)) == map[];
    assert PayerName(NameMap(Trio), 2) == "B";
  }

  /** ... and the pie chart rows the popup starts from are A 30.00, B 60.00, ... */
  lemma ReciprocalRows()
    ensures PaidEntries(NameMap(Trio), PaidRows(PaidMap(Reciprocal), NameMap(Trio)))
      == [PaidEntry(Some(1), 3000), PaidEntry(Some(2), 6000)]
  {
    TrioNames();
    assert Front(Reciprocal) == [Reciprocal[0]];
    assert Front([Reciprocal[0]]) == [];
    assert PaidMap([Reciprocal[0]]) == [(1, 3000)];
    assert PaidMap(Reciprocal) == [(1, 3000), (2, 6000)];
  }

  /** ... so after netting A's balance is exactly the share, 0 ... */
  lemma ReciprocalAdjusted()
    ensures AdjustedBalances([PaidEntry(Some(1), 3000), PaidEntry(Some(2), 6000)], Trio)
      == [Entry(1, 0), Entry(2, 3000), Entry(3, -3000)]
  {
    var paid := [PaidEntry(Some(1), 3000), PaidEntry(Some(2), 6000)];
    assert paid[1..][1..] == [];
    TrioBalancesOf(paid, 3000, 6000, 0);
    Money.RoundCentsExact(0, 3);
    Money.RoundCentsExact(1000 * 3, 3);
    Money.RoundCentsExact(-3000, 3);
  }

  /** ... and the settlement popup shows A nothing to pay: the two views
      are computed independently and disagree. */
  lemma ReciprocalNetted()
    ensures PersonalView(NameMap(Trio), PaidRows(PaidMap(Reciprocal), NameMap(Trio)), Trio, 1) == []
  {
    ReciprocalRows();
    ReciprocalAdjusted();
    var adj := AdjustedBalances([PaidEntry(Some(1), 3000), PaidEntry(Some(2), 6000)], Trio);
    ViewEmptyForCreditor(NameMap(Trio), PaidRows(PaidMap(Reciprocal), NameMap(Trio)), Trio, 1);
  }

  // ---------------------------------------------------------------------------
  // Duplicate display names.
  // ---------------------------------------------------------------------------

  /** The gross view merges the two Sams into one line. */
  lemma SamsMerged()
    ensures Debts([Expense(1, 3000, [1, 2, 3]), Expense(2, 600, [1, 2, 3])], 3, NameMap(Sams))
      == map["Sam" := 1200.0]
  {
    var es := [Expense(1, 3000, [1, 2, 3]), Expense(2, 600, [1, 2, 3])];
    SamNames();
    assert Front(es) == [es[0]];
    assert Front([es[0]]) == [];
    assert PayerName(NameMap(Sams), 1) == "Sam" && PayerName(NameMap(Sams), 2) == "Sam";
    assert Debts([es[0]], 3, NameMap(Sams)) == map["Sam" := 1000.0];
  }

  /** The second Sam pays 60.00 for everyone; the name lookup credits the
      payment to the first Sam ... */
  lemma SamsRows()
    ensures PaidEntries(NameMap(Sams), PaidRows(PaidMap([Expense(2, 6000, [1, 2, 3])]), NameMap(Sams)))
      == [PaidEntry(Some(1), 6000)]
  {
    SamNames();
    var es := [Expense(2, 6000, [1, 2, 3])];
    assert Front(es) == [];
    assert PaidMap(es) == [(2, 6000)];
  }

  /** ... so the first Sam is owed 40.00 and the other two owe 20.00 each ... */
  lemma SamsSettle()
    ensures Settle([PaidEntry(Some(1), 6000)], Sams) == [Transfer(2, 1, 2000), Transfer(3, 1, 2000)]
  {
    SettleByIds([PaidEntry(Some(1), 6000)], Sams, Trio);
    OnePays(2000);
  }

  /** ... of which the second Sam's share is one transfer to id 1 ... */
  lemma SamsMine()
    ensures Mine([Transfer(2, 1, 2000), Transfer(3, 1, 2000)], 2) == [Transfer(2, 1, 2000)]
  {
    var ts := [Transfer(2, 1, 2000), Transfer(3, 1, 2000)];
    assert ts[1..][1..] == [];
  }

  /** ... shown under the first Sam's name ... */
  lemma SamsLines()
    ensures OwedLines([Transfer(2, 1, 2000)], NameMap(Sams)) == [Owed(Some("Sam"), 2000)]
  {
    SamNames();
    assert Get(NameMap(Sams), 1) == Some("Sam");
  }

  /** ... so the popup has the second Sam, who paid, pay 20.00 to "Sam", the
      first one, who paid nothing. */
  lemma SamsMisdirected()
    ensures PersonalView(NameMap(Sams), PaidRows(PaidMap([Expense(2, 6000, [1, 2, 3])]), NameMap(Sams)), Sams, 2)
      == [Owed(Some("Sam"), 2000)]
  {
    var pm := NameMap(Sams);
    var entries := PaidEntries(pm, PaidRows(PaidMap([Expense(2, 6000, [1, 2, 3])]), pm));
    SamsRows();
    SamsSettle();
    SamsMine();
    SamsLines();
    calc {
      PersonalView(pm, PaidRows(PaidMap([Expense(2, 6000, [1, 2, 3])]), pm), Sams, 2);
      OwedLines(Mine(Settle(entries, Sams), 2), pm);
      OwedLines(Mine(Settle([PaidEntry(Some(1), 6000)], Sams), 2), pm);
      OwedLines(Mine([Transfer(2, 1, 2000), Transfer(3, 1, 2000)], 2), pm);
      OwedLines([Transfer(2, 1, 2000)], pm);
    }
  }

  // ---------------------------------------------------------------------------
  // Beneficiaries.
  // ---------------------------------------------------------------------------

  /** B pays 50.00 shared between B and C only; the gross view still has the
      viewer A owe B half of it. */
  lemma NotSharedStillOwed()
    ensures Debts([Expense(2, 5000, [2, 3])], 1, NameMap(Trio)) == map["B" := 2500.0]
  {
    TrioNames();
    assert Front([Expense(2, 5000, [2, 3])]) == [];
    assert PayerName(NameMap(Trio), 2) == "B";
  }
}
