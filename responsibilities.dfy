/** The responsibilities page of a trip: tasks shown as cards on a board of
    three columns ("todo", "inprogress", "done"), moved between columns by
    drag and drop, deleted on the trash bin, added to "todo", and grouped by
    the person responsible. The calls to the server are parameters: each
    handler receives whether its request succeeded. */
module TaskBoard {
  import opened Common

  // ---------------------------------------------------------------------------
  // Statuses and columns.
  // ---------------------------------------------------------------------------

  const REQUESTED := 0
  const IN_PROGRESS := 1
  const DONE := 2

  predicate IsColumn(col: string)
  {
    col == "todo" || col == "inprogress" || col == "done"
  }

  /** `statusForColumn`: "todo" and "inprogress" have their own status, every
      other name is DONE. */
  function StatusForColumn(col: string): (s: int)
    ensures s == REQUESTED || s == IN_PROGRESS || s == DONE
    ensures s == REQUESTED <==> col == "todo"
    ensures s == IN_PROGRESS <==> col == "inprogress"
  {
    if col == "todo" then REQUESTED else if col == "inprogress" then IN_PROGRESS else DONE
  }

  /** `colForStatus`: always one of the three columns, and the column's status
      is the status again, except that every unknown status lands in "done". */
  function ColForStatus(s: int): (col: string)
    ensures IsColumn(col)
    ensures StatusForColumn(col) == if s == REQUESTED || s == IN_PROGRESS then s else DONE
  {
    if s == REQUESTED then "todo" else if s == IN_PROGRESS then "inprogress" else "done"
  }

  /** The other direction: a column's status leads back to the column, and any
      other name leads to "done". */
  lemma ColumnStatusRoundTrip(col: string)
    ensures ColForStatus(StatusForColumn(col)) == if IsColumn(col) then col else "done"
  {
  }

  // ---------------------------------------------------------------------------
  // Tasks and cards.
  // ---------------------------------------------------------------------------

  /** A task as the tasks endpoint returns it; `responsibleName` is None when
      the field is null. */
  datatype Task = Task(taskId: nat, name: string, status: int, responsibleName: Option<string>)

  /** A card on the board: `full` is the task it shows. */
  datatype Card = Card(id: nat, text: string, responsible: string, full: Task)

  /** JavaScript's `s || fallback` on a string: the empty string is falsy. */
  function OrElse(s: Option<string>, fallback: string): (r: string)
    ensures s.Some? && s.value != "" ==> r == s.value
    ensures s.None? || s.value == "" ==> r == fallback
  {
    if s.Some? && s.value != "" then s.value else fallback
  }

  /** `toUpperCase` on one character, for the ASCII letters. */
  function Upper(c: char): (u: char)
    ensures 'a' <= c <= 'z' ==> 'A' <= u <= 'Z' && u as int + 32 == c as int
    ensures !('a' <= c <= 'z') ==> u == c
  {
    if 'a' <= c <= 'z' then (c as int - 32) as char else c
  }

  /** `(responsible_name || "?").charAt(0).toUpperCase()` */
  function Initial(name: Option<string>): (r: string)
    ensures |r| == 1
    ensures name.None? || name.value == "" ==> r == "?"
    ensures name.Some? && name.value != "" ==> r[0] == Upper(name.value[0])
  {
    [Upper(OrElse(name, "?")[0])]
  }

  /** The card built for a task on load and after creation. */
  function CardOf(t: Task): (c: Card)
    ensures c.id == t.taskId && c.text == t.name && c.full == t
    ensures c.responsible == Initial(t.responsibleName)
  {
    Card(t.taskId, t.name, Initial(t.responsibleName), t)
  }

  // ---------------------------------------------------------------------------
  // The board.
  // ---------------------------------------------------------------------------

  datatype Columns = Columns(todo: seq<Card>, inprogress: seq<Card>, done: seq<Card>)

  /** The drag state: the card being dragged and the column it came from. */
  datatype Board = Board(columns: Columns, dragged: Option<Card>, srcColumn: Option<string>)

  /** `columns[col]` */
  function Column(cs: Columns, col: string): seq<Card>
    requires IsColumn(col)
  {
    if col == "todo" then cs.todo else if col == "inprogress" then cs.inprogress else cs.done
  }

  /** `{...columns, [col]: cards}` */
  function WithColumn(cs: Columns, col: string, cards: seq<Card>): (r: Columns)
    requires IsColumn(col)
    ensures Column(r, col) == cards
    ensures forall c :: IsColumn(c) && c != col ==> Column(r, c) == Column(cs, c)
  {
    if col == "todo" then cs.(todo := cards)
    else if col == "inprogress" then cs.(inprogress := cards)
    else cs.(done := cards)
  }

  /** The cards of all three columns, "todo" first. */
  function AllCards(cs: Columns): seq<Card>
  {
    cs.todo + cs.inprogress + cs.done
  }

  /** `cards.filter(t => t.id !== id)`: the other cards keep their order and
      their multiplicity. */
  function Without(cards: seq<Card>, id: nat): (r: seq<Card>)
    ensures forall c :: c in r <==> c in cards && c.id != id
    ensures forall c :: multiset(r)[c] == if c.id != id then multiset(cards)[c] else 0
    ensures |r| <= |cards|
  {
    if cards == [] then []
    else
      assert cards == [cards[0]] + cards[1..];
      (if cards[0].id == id then [] else [cards[0]]) + Without(cards[1..], id)
  }

  /** How many cards carry `id`. */
  function IdCount(cards: seq<Card>, id: nat): nat
  {
    if cards == [] then 0
    else (if cards[0].id == id then 1 else 0) + IdCount(cards[1..], id)
  }

  lemma {:induction false} WithoutAbsent(cards: seq<Card>, id: nat)
    requires IdCount(cards, id) == 0
    ensures Without(cards, id) == cards
  {
    if cards != [] {
      WithoutAbsent(cards[1..], id);
    }
  }

  lemma {:induction false} WithoutAppend(s: seq<Card>, t: seq<Card>, id: nat)
    ensures Without(s + t, id) == Without(s, id) + Without(t, id)
  {
    if s != [] {
      assert (s + t)[1..] == s[1..] + t;
      WithoutAppend(s[1..], t, id);
    } else {
      assert s + t == t;
    }
  }

  /** Filtering out the one card carrying its id takes exactly that card. */
  lemma {:induction false} WithoutSingle(cards: seq<Card>, d: Card)
    requires d in cards && IdCount(cards, d.id) == 1
    ensures multiset(Without(cards, d.id)) + multiset{d} == multiset(cards)
  {
    assert cards == [cards[0]] + cards[1..];
    if cards[0] == d {
      WithoutAbsent(cards[1..], d.id);
    } else {
      if cards[0].id == d.id {
        IdCountIn(cards[1..], d);
      }
      WithoutSingle(cards[1..], d);
    }
  }

  lemma {:induction false} IdCountIn(cards: seq<Card>, d: Card)
    requires d in cards
    ensures IdCount(cards, d.id) >= 1
  {
    if cards[0] != d {
      IdCountIn(cards[1..], d);
    }
  }

  // ---------------------------------------------------------------------------
  // Loading the tasks.
  // ---------------------------------------------------------------------------

  /** The cards the load puts into `col`: those of the tasks whose status maps
      to it, in task order. */
  function Bucket(tasks: seq<Task>, col: string): (cards: seq<Card>)
    ensures forall c :: c in cards ==> ColForStatus(c.full.status) == col && c == CardOf(c.full)
    ensures forall c :: c in cards ==> c.full in tasks
  {
    if tasks == [] then []
    else
      var front := Bucket(Front(tasks), col);
      assert forall t :: t in Front(tasks) ==> t in tasks;
      front + (if ColForStatus(Last(tasks).status) == col then [CardOf(Last(tasks))] else [])
  }

  /** The other direction: every task's card is in the column its status
      maps to. */
  lemma {:induction false} BucketComplete(tasks: seq<Task>, t: Task)
    requires t in tasks
    ensures CardOf(t) in Bucket(tasks, ColForStatus(t.status))
  {
    if Last(tasks) != t {
      assert tasks == Front(tasks) + [Last(tasks)];
      assert t in Front(tasks);
      BucketComplete(Front(tasks), t);
    }
  }

  /** The `forEach` that pushes each task's card onto its status's column. */
  method LoadColumns(tasks: seq<Task>) returns (cs: Columns)
    ensures cs.todo == Bucket(tasks, "todo")
    ensures cs.inprogress == Bucket(tasks, "inprogress")
    ensures cs.done == Bucket(tasks, "done")
  {
    var todo, inprogress, done := [], [], [];
    for k := 0 to |tasks|
      invariant todo == Bucket(tasks[..k], "todo")
      invariant inprogress == Bucket(tasks[..k], "inprogress")
      invariant done == Bucket(tasks[..k], "done")
    {
      assert tasks[..k + 1][..k] == tasks[..k];
      var col := ColForStatus(tasks[k].status);
      var card := CardOf(tasks[k]);
      if col == "todo" {
        todo := todo + [card];
      } else if col == "inprogress" {
        inprogress := inprogress + [card];
      } else {
        done := done + [card];
      }
    }
    assert tasks[..|tasks|] == tasks;
    cs := Columns(todo, inprogress, done);
  }

  /** Every task gets exactly one card: the three columns hold as many cards
      as there are tasks. */
  lemma {:induction false} LoadKeepsEveryTask(tasks: seq<Task>)
    ensures |Bucket(tasks, "todo")| + |Bucket(tasks, "inprogress")| + |Bucket(tasks, "done")| == |tasks|
  {
    if tasks != [] {
      LoadKeepsEveryTask(Front(tasks));
    }
  }

  // ---------------------------------------------------------------------------
  // Drag and drop between columns.
  // ---------------------------------------------------------------------------

  /** The dragged card with the status of the column it is dropped on. */
  function Retagged(d: Card, target: string): (c: Card)
    ensures c.id == d.id && c.full.status == StatusForColumn(target)
    ensures c.full.taskId == d.full.taskId && c.text == d.text && c.responsible == d.responsible
  {
    d.(full := d.full.(status := StatusForColumn(target)))
  }

  /** The optimistic update of `handleDrop`. */
  function MoveCard(cs: Columns, d: Card, src: string, target: string): (r: Columns)
    requires IsColumn(src) && IsColumn(target) && src != target
    ensures Column(r, src) == Without(Column(cs, src), d.id)
    ensures Column(r, target) == Column(cs, target) + [Retagged(d, target)]
    ensures forall c :: IsColumn(c) && c != src && c != target ==> Column(r, c) == Column(cs, c)
  {
    WithColumn(WithColumn(cs, src, Without(Column(cs, src), d.id)), target,
               Column(cs, target) + [Retagged(d, target)])
  }

  /** The rollback of `handleDrop` after the status update failed. */
  function RollBack(cs: Columns, d: Card, src: string, target: string): (r: Columns)
    requires IsColumn(src) && IsColumn(target) && src != target
    ensures Column(r, src) == Column(cs, src) + [d]
    ensures Column(r, target) == Without(Column(cs, target), d.id)
    ensures forall c :: IsColumn(c) && c != src && c != target ==> Column(r, c) == Column(cs, c)
  {
    WithColumn(WithColumn(cs, src, Column(cs, src) + [d]), target, Without(Column(cs, target), d.id))
  }

  /** The drag state `handleDragStart` leaves names a column, if any. */
  predicate DragFromColumn(b: Board)
  {
    b.srcColumn.Some? ==> IsColumn(b.srcColumn.value)
  }

  /** `handleDrop(target)`, given whether the status update succeeded. */
  function Drop(b: Board, target: string, updateOk: bool): (r: Board)
    requires IsColumn(target) && DragFromColumn(b)
    ensures b.dragged.None? || b.srcColumn.None? || b.srcColumn.value == target ==> r == b
    ensures b.dragged.Some? && b.srcColumn.Some? && b.srcColumn.value != target ==>
              r.dragged.None? && r.srcColumn.None?
  {
    if b.dragged.None? || b.srcColumn.None? || b.srcColumn.value == target then b
    else
      var d, src := b.dragged.value, b.srcColumn.value;
      var moved := MoveCard(b.columns, d, src, target);
      Board(if updateOk then moved else RollBack(moved, d, src, target), None, None)
  }

  /** A successful drop takes the card out of its column and appends it, with
      its new status, to the target column; the third column is untouched. */
  lemma DropMoves(b: Board, target: string)
    requires IsColumn(target) && DragFromColumn(b)
    requires b.dragged.Some? && b.srcColumn.Some? && b.srcColumn.value != target
    ensures var r := Drop(b, target, true);
      && Column(r.columns, b.srcColumn.value) == Without(Column(b.columns, b.srcColumn.value), b.dragged.value.id)
      && Column(r.columns, target) == Column(b.columns, target) + [Retagged(b.dragged.value, target)]
      && forall c :: IsColumn(c) && c != b.srcColumn.value && c != target ==>
           Column(r.columns, c) == Column(b.columns, c)
  {
  }

  /** A failed drop gives every column back the cards it had, when the dragged
      card was the only card with its id; the card itself goes to the end of
      its column rather than back to its place. */
  lemma DropRollbackRestores(b: Board, target: string, col: string)
    requires IsColumn(target) && DragFromColumn(b) && IsColumn(col)
    requires b.dragged.Some? && b.srcColumn.Some? && b.srcColumn.value != target
    requires b.dragged.value in Column(b.columns, b.srcColumn.value)
    requires IdCount(Column(b.columns, b.srcColumn.value), b.dragged.value.id) == 1
    requires IdCount(Column(b.columns, target), b.dragged.value.id) == 0
    ensures multiset(Column(Drop(b, target, false).columns, col)) == multiset(Column(b.columns, col))
  {
    var d, src := b.dragged.value, b.srcColumn.value;
    var r := Drop(b, target, false).columns;
    if col == src {
      WithoutSingle(Column(b.columns, src), d);
    } else if col == target {
      WithoutAppend(Column(b.columns, target), [Retagged(d, target)], d.id);
      WithoutAbsent(Column(b.columns, target), d.id);
      assert Without([Retagged(d, target)], d.id) == [];
    }
  }

  /** The position is not restored: a card dragged from the head of "todo"
      whose move fails comes back at the end. */
  lemma RollbackReorders(d: Card, e: Card)
    requires d.id != e.id
    ensures Drop(Board(Columns([d, e], [], []), Some(d), Some("todo")), "done", false).columns
            == Columns([e, d], [], [])
  {
    assert Without([d, e], d.id) == [e] by {
      assert [d, e][1..] == [e];
      assert [e][1..] == [];
    }
    assert Without([Retagged(d, "done")], d.id) == [];
  }

  // ---------------------------------------------------------------------------
  // Deleting a card on the trash bin.
  // ---------------------------------------------------------------------------

  /** `handleDelete`, given whether the delete request succeeded. */
  function Delete(b: Board, deleteOk: bool): (r: Board)
    requires DragFromColumn(b)
    ensures b.dragged.None? || b.srcColumn.None? ==> r == b
    ensures b.dragged.Some? && b.srcColumn.Some? ==>
      && r.dragged.None? && r.srcColumn.None?
      && (forall c :: IsColumn(c) && c != b.srcColumn.value ==> Column(r.columns, c) == Column(b.columns, c))
      && Column(r.columns, b.srcColumn.value)
         == Without(Column(b.columns, b.srcColumn.value), b.dragged.value.id)
            + (if deleteOk then [] else [b.dragged.value])
  {
    if b.dragged.None? || b.srcColumn.None? then b
    else
      var d, src := b.dragged.value, b.srcColumn.value;
      var removed := WithColumn(b.columns, src, Without(Column(b.columns, src), d.id));
      Board(if deleteOk then removed else WithColumn(removed, src, Column(removed, src) + [d]), None, None)
  }

  /** A failed delete puts back exactly the card it took, when the card was
      the only one with its id in its column. */
  lemma DeleteRestores(b: Board)
    requires DragFromColumn(b) && b.dragged.Some? && b.srcColumn.Some?
    requires b.dragged.value in Column(b.columns, b.srcColumn.value)
    requires IdCount(Column(b.columns, b.srcColumn.value), b.dragged.value.id) == 1
    ensures multiset(AllCards(Delete(b, false).columns)) == multiset(AllCards(b.columns))
  {
    WithoutSingle(Column(b.columns, b.srcColumn.value), b.dragged.value);
  }

  /** A successful delete removes one card from the board when it was the only
      one with its id in its column. */
  lemma DeleteRemoves(b: Board)
    requires DragFromColumn(b) && b.dragged.Some? && b.srcColumn.Some?
    requires b.dragged.value in Column(b.columns, b.srcColumn.value)
    requires IdCount(Column(b.columns, b.srcColumn.value), b.dragged.value.id) == 1
    ensures multiset(AllCards(Delete(b, true).columns)) + multiset{b.dragged.value}
            == multiset(AllCards(b.columns))
  {
    WithoutSingle(Column(b.columns, b.srcColumn.value), b.dragged.value);
  }

  // ---------------------------------------------------------------------------
  // Adding a task.
  // ---------------------------------------------------------------------------

  /** The characters `String.prototype.trim` removes: white space and line
      terminators. */
  predicate IsSpace(c: char)
  {
    c == ' ' || c == '\t' || c == '\n' || c == '\r' || c as int == 0x0B || c as int == 0x0C
    || c as int == 0xA0 || c as int == 0x1680 || 0x2000 <= c as int <= 0x200A
    || c as int == 0x2028 || c as int == 0x2029 || c as int == 0x202F
    || c as int == 0x205F || c as int == 0x3000 || c as int == 0xFEFF
  }

  function TrimStart(s: string): string
  {
    if s != [] && IsSpace(s[0]) then TrimStart(s[1..]) else s
  }

  function TrimEnd(s: string): string
  {
    if s != [] && IsSpace(Last(s)) then TrimEnd(Front(s)) else s
  }

  /** `s.trim()` */
  function Trim(s: string): string
  {
    TrimEnd(TrimStart(s))
  }

  /** Trimming leaves nothing exactly when every character is white space. */
  lemma {:induction false} TrimEmpty(s: string)
    ensures Trim(s) == "" <==> forall k :: 0 <= k < |s| ==> IsSpace(s[k])
  {
    if s != [] && IsSpace(s[0]) {
      TrimEmpty(s[1..]);
      assert forall k :: 0 < k < |s| ==> s[k] == s[1..][k - 1];
    } else if s != [] {
      TrimEndKeeps(s);
    }
  }

  lemma {:induction false} TrimEndKeeps(s: string)
    requires s != [] && !IsSpace(s[0])
    ensures TrimEnd(s) != ""
  {
    if |s| > 1 && IsSpace(Last(s)) {
      TrimEndKeeps(Front(s));
    }
  }

  /** `addTask`: nothing happens for a blank name or when nobody is chosen as
      responsible; otherwise the created task (None when the request failed)
      is appended as a card to the end of "todo". */
  function AddTask(cs: Columns, taskText: string, selectedResp: string, created: Option<Task>): (r: Columns)
    ensures Trim(taskText) == "" || selectedResp == "" || created.None? ==> r == cs
    ensures Trim(taskText) != "" && selectedResp != "" && created.Some? ==>
      r.todo == cs.todo + [CardOf(created.value)] && r.inprogress == cs.inprogress && r.done == cs.done
  {
    if Trim(taskText) == "" || selectedResp == "" then cs
    else match created
      case None => cs
      case Some(t) => cs.(todo := cs.todo + [CardOf(t)])
  }

  /** A name of white space only adds nothing, whatever the server would do. */
  lemma AddBlankIgnored(cs: Columns, taskText: string, selectedResp: string, created: Option<Task>)
    requires forall k :: 0 <= k < |taskText| ==> IsSpace(taskText[k])
    ensures AddTask(cs, taskText, selectedResp, created) == cs
  {
    TrimEmpty(taskText);
  }

  /** An added task is one more card on the board, the last one of "todo". */
  lemma AddOneCard(cs: Columns, taskText: string, selectedResp: string, t: Task)
    requires Trim(taskText) != "" && selectedResp != ""
    ensures multiset(AllCards(AddTask(cs, taskText, selectedResp, Some(t))))
            == multiset(AllCards(cs)) + multiset{CardOf(t)}
  {
  }

  // ---------------------------------------------------------------------------
  // Grouping by responsible person.
  // ---------------------------------------------------------------------------

  /** `card.full.responsible_name || "Unknown"` */
  function RespName(c: Card): string
  {
    OrElse(c.full.responsibleName, "Unknown")
  }

  /** The accumulator of the `reduce`: each card pushed onto its person's list. */
  function Group(cards: seq<Card>): map<string, seq<Card>>
  {
    if cards == [] then map[]
    else
      var g := Group(Front(cards));
      var name := RespName(Last(cards));
      g[name := (if name in g then g[name] else []) + [Last(cards)]]
  }

  /** The cards of one person, in board order. */
  function ByName(cards: seq<Card>, name: string): seq<Card>
  {
    if cards == [] then []
    else ByName(Front(cards), name) + (if RespName(Last(cards)) == name then [Last(cards)] else [])
  }

  /** `allTasksByResp`: reduces over todo, inprogress and done in that order. */
  method GroupByResponsible(cs: Columns) returns (resp: map<string, seq<Card>>)
    ensures resp == Group(AllCards(cs))
  {
    var all := AllCards(cs);
    resp := map[];
    for k := 0 to |all|
      invariant resp == Group(all[..k])
    {
      assert all[..k + 1][..k] == all[..k];
      var card := all[k];
      var name := RespName(card);
      var list := if name in resp then resp[name] else [];
      resp := resp[name := list + [card]];
    }
    assert all[..|all|] == all;
  }

  /** A person has a group exactly when one of the cards names them, and the
      group is the cards naming them, in order. */
  lemma {:induction false} GroupIsByName(cards: seq<Card>, name: string)
    ensures name in Group(cards) <==> ByName(cards, name) != []
    ensures name in Group(cards) ==> Group(cards)[name] == ByName(cards, name)
  {
    if cards != [] {
      GroupIsByName(Front(cards), name);
    }
  }

  /** Each card lies in its own person's group as often as it lies on the
      board, and in no other group. */
  lemma {:induction false} ByNameCounts(cards: seq<Card>, name: string, c: Card)
    ensures multiset(ByName(cards, name))[c] == if RespName(c) == name then multiset(cards)[c] else 0
  {
    if cards != [] {
      ByNameCounts(Front(cards), name, c);
      assert cards == Front(cards) + [Last(cards)];
    }
  }
}
