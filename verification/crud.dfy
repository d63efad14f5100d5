/**
 * The list / edit / assign workflow shared by the users, roles and
 * permissions pages. Each handler is a pure transition from the page state
 * (and the outcomes of the calls it awaits, and the answer of the confirmation
 * dialog) to the new page state and the API calls it issues, in order. The
 * `load()` a handler starts without awaiting shows up as its list calls; its
 * completion is the separate `LoadDone` transition.
 */
module Crud {
  import opened Wrappers
  import opened JsValue
  import JsNumber
  import Api

  /** A reference embedded in a listed record: `{ id, name }`; a missing name is `undefined`. */
  datatype Ref = Ref(id: int, name: Option<string>)

  /**
   * A listed record. For a user `title` is `email`, `text` is `full_name` and
   * `links` its `roles`; for a role they are `name`, `description` and
   * `permissions`; a permission has `name` and `description`. Missing fields
   * are `undefined` (None).
   */
  datatype Record = Record(id: int, title: Option<string>, text: Option<string>, links: Option<seq<Ref>>)

  /**
   * The page's state hooks: the main list, the second list feeding the
   * assignment choices, the two form fields, the record being edited, the
   * record whose links are being assigned, the chosen option values and the
   * error text.
   */
  datatype Page = Page(rows: seq<Record>, options: seq<Record>, title: string, text: string,
                       editing: Option<Record>, assigning: Option<Record>, selected: seq<string>, err: string)

  /** The `useState` defaults: empty lists, a blank form, no dialog, no selection, no error. */
  const Initial := Page([], [], "", "", None, None, [], "")

  /** A new page state and the API calls issued on the way, in order. */
  datatype Step = Step(page: Page, calls: seq<Api.Call>)

  /** How the page's `load` settles: both lists (each possibly null), or a rejection. */
  datatype Loaded = Loaded(primary: Option<seq<Record>>, secondary: Option<seq<Record>>) | LoadFailed(message: string)

  // ---------------------------------------------------------------------------
  // What differs between the pages

  /** Only the users and roles pages assign links. */
  predicate HasAssign(c: Api.Collection) {
    c != Api.Permissions
  }

  /** The list calls of `load`: the page's own list, then the list its assignment chooses from. */
  function LoadCalls(c: Api.Collection): seq<Api.Call> {
    match c
    case Users => [Api.ListCall(Api.Users), Api.ListCall(Api.Roles)]
    case Roles => [Api.ListCall(Api.Roles), Api.ListCall(Api.Permissions)]
    case Permissions => [Api.ListCall(Api.Permissions)]
  }

  function TitleKey(c: Api.Collection): string {
    if c == Api.Users then "email" else "name"
  }

  function TextKey(c: Api.Collection): string {
    if c == Api.Users then "full_name" else "description"
  }

  /** The body of a create or update: the two form fields under the record's own keys. */
  function Payload(c: Api.Collection, title: string, text: string): Json {
    JObj(map[TitleKey(c) := JStr(title), TextKey(c) := JStr(text)])
  }

  function LoadFailure(c: Api.Collection): string {
    if c == Api.Permissions then "Failed to load permissions" else "Failed to load"
  }

  function Noun(c: Api.Collection): string {
    match c
    case Users => "user"
    case Roles => "role"
    case Permissions => "permission"
  }

  function SaveFailure(c: Api.Collection): string {
    "Failed to save " + Noun(c)
  }

  function DeleteFailure(c: Api.Collection): string {
    "Failed to delete " + Noun(c)
  }

  function AssignFailure(c: Api.Collection): string {
    if c == Api.Users then "Failed to assign roles" else "Failed to assign permissions"
  }

  function AssignCall(c: Api.Collection, id: int, ids: seq<JsNumber.Num>): Api.Call
    requires HasAssign(c)
  {
    if c == Api.Users then Api.AssignRolesCall(id, ids) else Api.AssignPermissionsCall(id, ids)
  }

  /** `setErr(e.message || fallback)` */
  function Fail(st: Page, message: string, fallback: string): Page {
    st.(err := OrElse(message, fallback))
  }

  // ---------------------------------------------------------------------------
  // Handlers

  function Load(c: Api.Collection, st: Page): Step {
    Step(st, LoadCalls(c))
  }

  /** The end of `load`: store the lists, a null list as an empty one, or show the error. */
  function LoadDone(c: Api.Collection, st: Page, outcome: Loaded): Page {
    match outcome
    case LoadFailed(m) => Fail(st, m, LoadFailure(c))
    case Loaded(primary, secondary) =>
      if c == Api.Permissions then st.(rows := primary.GetOr([]))
      else st.(rows := primary.GetOr([]), options := secondary.GetOr([]))
  }

  /** `resetForm`: both form fields and the edited record are cleared; nothing else changes. */
  function ResetForm(st: Page): (r: Page)
    ensures r.title == "" && r.text == "" && r.editing == None
    ensures r.(title := st.title, text := st.text, editing := st.editing) == st
  {
    st.(title := "", text := "", editing := None)
  }

  /** `onEdit(row)`: the form shows the record's two fields ("" when missing) and the record is the one edited. */
  function Edit(st: Page, row: Record): (r: Page)
    ensures r.editing == Some(row)
    ensures row.title.Some? ==> r.title == row.title.value
    ensures row.title.None? ==> r.title == ""
    ensures row.text.Some? ==> r.text == row.text.value
    ensures row.text.None? ==> r.text == ""
    ensures r.(title := st.title, text := st.text, editing := st.editing) == st
  {
    st.(editing := Some(row), title := OrElse(row.title.GetOr(""), ""), text := OrElse(row.text.GetOr(""), ""))
  }

  /** `onSave`: update the edited record or create a new one; on success reset and reload. */
  function Save(c: Api.Collection, st: Page, outcome: Api.ApiResult): Step {
    var payload := Payload(c, st.title, st.text);
    var call := if st.editing.Some? then Api.UpdateCall(c, st.editing.value.id, payload)
                else Api.CreateCall(c, payload);
    match outcome
    case Done(_) => Step(ResetForm(st), [call] + LoadCalls(c))
    case Failed(m) => Step(Fail(st, m, SaveFailure(c)), [call])
  }

  /** `onDelete`: nothing at all unless confirmed; on success reload. */
  function Delete(c: Api.Collection, st: Page, row: Record, confirmed: bool, outcome: Api.ApiResult): Step {
    if !confirmed then Step(st, [])
    else
      match outcome
      case Done(_) => Step(st, [Api.DeleteCall(c, row.id)] + LoadCalls(c))
      case Failed(m) => Step(Fail(st, m, DeleteFailure(c)), [Api.DeleteCall(c, row.id)])
  }

  /** `(row.links || []).map((x) => x.id)` */
  function LinkIds(row: Record): (ids: seq<int>)
    ensures |ids| == |row.links.GetOr([])|
    ensures forall i :: 0 <= i < |ids| ==> ids[i] == row.links.GetOr([])[i].id
  {
    var links := row.links.GetOr([]);
    seq(|links|, i requires 0 <= i < |links| => links[i].id)
  }

  /** `openAssign(row)`: the dialog opens on the record and the selection becomes its link ids as strings, in order. */
  function OpenAssign(st: Page, row: Record): (r: Page)
    ensures r.assigning == Some(row)
    ensures |r.selected| == |row.links.GetOr([])|
    ensures forall i :: 0 <= i < |r.selected| ==> r.selected[i] == JsNumber.IntToString(row.links.GetOr([])[i].id)
    ensures row.links.None? ==> r.selected == []
    ensures r.(assigning := st.assigning, selected := st.selected) == st
  {
    st.(assigning := Some(row), selected := JsNumber.MapToString(LinkIds(row)))
  }

  /** How many of the positions before `i`, counted from `start`, are picked. */
  function Rank(picked: set<int>, start: int, i: nat): nat {
    if i == 0 then 0 else Rank(picked, start, i - 1) + (if start + i - 1 in picked then 1 else 0)
  }

  /** Counting from the next position skips the first one. */
  lemma {:induction false} RankShift(picked: set<int>, start: int, i: nat)
    ensures Rank(picked, start, i + 1) == (if start in picked then 1 else 0) + Rank(picked, start + 1, i)
    decreases i
  {
    if i > 0 {
      RankShift(picked, start, i - 1);
    }
  }

  /** A picked position ranks below every later one. */
  lemma {:induction false} RankIncreases(picked: set<int>, start: int, p: nat, q: nat)
    requires p < q && start + p in picked
    ensures Rank(picked, start, p) < Rank(picked, start, q)
    decreases q
  {
    if q > p + 1 {
      RankIncreases(picked, start, p, q - 1);
    }
  }

  /** The picked position before `n` whose rank is `k`. */
  function PickedAt(picked: set<int>, start: int, n: nat, k: nat): (i: nat)
    requires k < Rank(picked, start, n)
    ensures i < n && start + i in picked && Rank(picked, start, i) == k
    decreases n
  {
    if k < Rank(picked, start, n - 1) then PickedAt(picked, start, n - 1, k) else n - 1
  }

  /**
   * The options a multiple select reports as chosen, in document order: those
   * of `options` whose position (counted from `start`) is in `picked`. There
   * are as many as there are picked positions, and each picked option sits
   * at its rank among them.
   */
  function ChosenFrom(options: seq<Record>, picked: set<int>, start: int): (r: seq<Record>)
    ensures |r| == Rank(picked, start, |options|)
    ensures forall i {:trigger options[i]} :: 0 <= i < |options| && start + i in picked ==>
              Rank(picked, start, i) < |r| && r[Rank(picked, start, i)] == options[i]
    decreases |options|
  {
    if options == [] then []
    else
      var rest := ChosenFrom(options[1..], picked, start + 1);
      var head := if start in picked then [options[0]] else [];
      assert |head + rest| == Rank(picked, start, |options|) by {
        RankShift(picked, start, |options| - 1);
      }
      assert forall i :: 0 <= i < |options| && start + i in picked ==>
               Rank(picked, start, i) < |head + rest| && (head + rest)[Rank(picked, start, i)] == options[i] by {
        forall i | 0 <= i < |options| && start + i in picked
          ensures Rank(picked, start, i) < |head + rest| && (head + rest)[Rank(picked, start, i)] == options[i]
        {
          if i > 0 {
            RankShift(picked, start, i - 1);
            assert start + 1 + (i - 1) in picked;
            assert options[1..][i - 1] == options[i];
          }
        }
      }
      head + rest
  }

  /** `x` and `y` are options picked (counting from `start`) with `x` standing before `y`. */
  ghost predicate PickedInOrder(options: seq<Record>, picked: set<int>, start: int, x: Record, y: Record) {
    exists p, q :: 0 <= p < q < |options| && start + p in picked && start + q in picked &&
                   options[p] == x && options[q] == y
  }

  /** A picked option sits at its rank among the chosen ones. */
  lemma ChosenAt(options: seq<Record>, picked: set<int>, start: int, i: nat)
    requires i < |options| && start + i in picked
    ensures Rank(picked, start, i) < |ChosenFrom(options, picked, start)|
    ensures ChosenFrom(options, picked, start)[Rank(picked, start, i)] == options[i]
  {
    var o := options[i];  // the `options[i]` term that triggers ChosenFrom's second ensures
  }

  /**
   * The chosen options are the picked ones, each kept, in list order: the
   * membership both ways, and an earlier chosen option stands earlier in
   * the list.
   */
  lemma ChosenInListOrder(options: seq<Record>, picked: set<int>, start: int)
    ensures var r := ChosenFrom(options, picked, start);
            && |r| <= |options|
            && (forall x :: x in r ==> exists i :: 0 <= i < |options| && start + i in picked && options[i] == x)
            && (forall i :: 0 <= i < |options| && start + i in picked ==> options[i] in r)
            && (forall j, k :: 0 <= j < k < |r| ==>
                  PickedInOrder(options, picked, start, r[j], r[k]))
  {
    var r := ChosenFrom(options, picked, start);
    RankAtMost(picked, start, |options|);
    ChosenArePicked(options, picked, start, r);
    forall i | 0 <= i < |options| && start + i in picked
      ensures options[i] in r
    {
      ChosenAt(options, picked, start, i);
    }
    ChosenKeepOrder(options, picked, start, r);
  }

  /** Every chosen option is a picked one. */
  lemma ChosenArePicked(options: seq<Record>, picked: set<int>, start: int, r: seq<Record>)
    requires r == ChosenFrom(options, picked, start)
    ensures forall x :: x in r ==> exists i :: 0 <= i < |options| && start + i in picked && options[i] == x
  {
    forall x | x in r
      ensures exists i :: 0 <= i < |options| && start + i in picked && options[i] == x
    {
      var k :| 0 <= k < |r| && r[k] == x;
      var i := PickedAt(picked, start, |options|, k);
      ChosenAt(options, picked, start, i);
    }
  }

  /** Two chosen options stand in the same order as in the list. */
  lemma ChosenKeepOrder(options: seq<Record>, picked: set<int>, start: int, r: seq<Record>)
    requires r == ChosenFrom(options, picked, start)
    ensures forall j, k :: 0 <= j < k < |r| ==>
              PickedInOrder(options, picked, start, r[j], r[k])
  {
    forall j, k | 0 <= j < k < |r|
      ensures PickedInOrder(options, picked, start, r[j], r[k])
    {
      ChosenPairOrder(options, picked, start, j, k);
    }
  }

  /** The chosen options at ranks `j < k` come from picked positions `p < q`. */
  lemma ChosenPairOrder(options: seq<Record>, picked: set<int>, start: int, j: nat, k: nat)
    requires j < k < |ChosenFrom(options, picked, start)|
    ensures var p := PickedAt(picked, start, |options|, j);
            var q := PickedAt(picked, start, |options|, k);
            && p < q < |options| && start + p in picked && start + q in picked
            && options[p] == ChosenFrom(options, picked, start)[j]
            && options[q] == ChosenFrom(options, picked, start)[k]
  {
    var p := PickedAt(picked, start, |options|, j);
    var q := PickedAt(picked, start, |options|, k);
    PickedAtIncreases(picked, start, |options|, j, k);
    ChosenAt(options, picked, start, p);
    ChosenAt(options, picked, start, q);
  }

  /** A lower rank is held by an earlier picked position. */
  lemma PickedAtIncreases(picked: set<int>, start: int, n: nat, j: nat, k: nat)
    requires j < k < Rank(picked, start, n)
    ensures PickedAt(picked, start, n, j) < PickedAt(picked, start, n, k)
  {
    var p := PickedAt(picked, start, n, j);
    var q := PickedAt(picked, start, n, k);
    if q < p {
      RankIncreases(picked, start, q, p);
    }
  }

  /** There are no more picked positions before `n` than positions. */
  lemma {:induction false} RankAtMost(picked: set<int>, start: int, n: nat)
    ensures Rank(picked, start, n) <= n
    decreases n
  {
    if n > 0 {
      RankAtMost(picked, start, n - 1);
    }
  }

  function Ids(records: seq<Record>): (ids: seq<int>)
    ensures |ids| == |records|
    ensures forall i :: 0 <= i < |ids| ==> ids[i] == records[i].id
  {
    seq(|records|, i requires 0 <= i < |records| => records[i].id)
  }

  /**
   * The select's `onChange`: the values (`String(id)`) of exactly the picked
   * options replace the selection; nothing else changes.
   */
  function Choose(st: Page, picked: set<int>): (r: Page)
    ensures forall v :: v in r.selected ==>
              exists i :: 0 <= i < |st.options| && i in picked && v == JsNumber.IntToString(st.options[i].id)
    ensures forall i :: 0 <= i < |st.options| && i in picked ==> JsNumber.IntToString(st.options[i].id) in r.selected
    ensures r.(selected := st.selected) == st
  {
    var values := JsNumber.MapToString(Ids(ChosenFrom(st.options, picked, 0)));
    ChosenValues(st.options, picked, values);
    st.(selected := values)
  }

  /** The select's values after a choice: the string ids of exactly the picked options. */
  lemma ChosenValues(options: seq<Record>, picked: set<int>, values: seq<string>)
    requires values == JsNumber.MapToString(Ids(ChosenFrom(options, picked, 0)))
    ensures forall v :: v in values ==>
              exists i :: 0 <= i < |options| && i in picked && v == JsNumber.IntToString(options[i].id)
    ensures forall i :: 0 <= i < |options| && i in picked ==> JsNumber.IntToString(options[i].id) in values
  {
    var chosen := ChosenFrom(options, picked, 0);
    forall v | v in values
      ensures exists i :: 0 <= i < |options| && i in picked && v == JsNumber.IntToString(options[i].id)
    {
      var k :| 0 <= k < |values| && values[k] == v;
      var i := PickedAt(picked, 0, |options|, k);
      ChosenAt(options, picked, 0, i);
    }
    forall i | 0 <= i < |options| && i in picked
      ensures JsNumber.IntToString(options[i].id) in values
    {
      assert 0 + i in picked;
      ChosenAt(options, picked, 0, i);
      assert values[Rank(picked, 0, i)] == JsNumber.IntToString(options[i].id);
    }
  }

  /** The dialog's Cancel button and its close control: the dialog closes; the selection and everything else stay. */
  function CloseAssign(st: Page): (r: Page)
    ensures r.assigning == None
    ensures r.selected == st.selected && r.rows == st.rows && r.err == st.err
    ensures r.(assigning := st.assigning) == st
  {
    st.(assigning := None)
  }

  /** `doAssign`: PUT `Number` of every selected value as the whole set; close the dialog on success. */
  function DoAssign(c: Api.Collection, st: Page, outcome: Api.ApiResult): Step
    requires HasAssign(c) && st.assigning.Some?
  {
    var call := AssignCall(c, st.assigning.value.id, JsNumber.MapToNumber(st.selected));
    match outcome
    case Done(_) => Step(st.(assigning := None), [call] + LoadCalls(c))
    case Failed(m) => Step(Fail(st, m, AssignFailure(c)), [call])
  }

  /** `links.map((x) => x.name)`, where `join` prints a missing name as "". */
  function LinkNames(links: seq<Ref>): (names: seq<string>)
    ensures |names| == |links|
    ensures forall i :: 0 <= i < |links| ==> names[i] == links[i].name.GetOr("")
  {
    seq(|links|, i requires 0 <= i < |links| => links[i].name.GetOr(""))
  }

  /**
   * The links column, `(row.links || []).map((x) => x.name).join(', ') || '-'`:
   * "-" without links; the single name, or "-" when it is empty, for one
   * link; for several links the names in order with ", " between each two
   * and nothing else (`LaidOut`).
   */
  function LinksCell(row: Record): (cell: string)
    ensures var names := LinkNames(row.links.GetOr([]));
            && cell != ""
            && (|names| == 0 ==> cell == "-")
            && (|names| == 1 ==> cell == OrElse(names[0], "-"))
            && (|names| >= 2 ==> LaidOut(names, ", ", cell))
  {
    var names := LinkNames(row.links.GetOr([]));
    CellLayout(names);
    OrElse(Join(names, ", "), "-")
  }

  /** The cases of the links column, for any list of names. */
  lemma CellLayout(names: seq<string>)
    ensures var cell := OrElse(Join(names, ", "), "-");
            && cell != ""
            && (|names| == 0 ==> cell == "-")
            && (|names| == 1 ==> cell == OrElse(names[0], "-"))
            && (|names| >= 2 ==> LaidOut(names, ", ", cell))
  {
    var j := Join(names, ", ");
    JoinIsEmpty(names, ", ");
    if |names| >= 2 {
      JoinLayout(names, ", ");
      assert j != "";
      assert OrElse(j, "-") == j;
    } else if |names| == 1 {
      assert j == names[0];
    }
  }

  // ---------------------------------------------------------------------------
  // Properties shared by the pages

  /** Editing a record and saving sends an update of that record with its fields (missing ones as ""). */
  lemma EditThenSaveUpdates(c: Api.Collection, st: Page, row: Record, outcome: Api.ApiResult)
    ensures Save(c, Edit(st, row), outcome).calls[0]
            == Api.UpdateCall(c, row.id, Payload(c, row.title.GetOr(""), row.text.GetOr("")))
  {
  }

  /** After a reset, saving creates a record. */
  lemma ResetThenSaveCreates(c: Api.Collection, st: Page, outcome: Api.ApiResult)
    ensures Save(c, ResetForm(st), outcome).calls[0] == Api.CreateCall(c, Payload(c, "", ""))
  {
  }

  /** A mutation that succeeds is followed by the page's full reload; one that fails is not. */
  lemma MutationsReload(c: Api.Collection, st: Page, row: Record, outcome: Api.ApiResult)
    ensures var r := Save(c, st, outcome);
            |r.calls| >= 1 && r.calls[1..] == (if outcome.Done? then LoadCalls(c) else [])
    ensures var r := Delete(c, st, row, true, outcome);
            |r.calls| >= 1 && r.calls[1..] == (if outcome.Done? then LoadCalls(c) else [])
    ensures HasAssign(c) && st.assigning.Some? ==>
            var r := DoAssign(c, st, outcome);
            |r.calls| >= 1 && r.calls[1..] == (if outcome.Done? then LoadCalls(c) else [])
  {
  }

  /** The error text changes only when a call fails, and then it is never empty. */
  lemma ErrorOnlyOnFailure(c: Api.Collection, st: Page, row: Record, confirmed: bool, outcome: Api.ApiResult)
    ensures outcome.Done? ==> Save(c, st, outcome).page.err == st.err
    ensures outcome.Done? || !confirmed ==> Delete(c, st, row, confirmed, outcome).page.err == st.err
    ensures outcome.Failed? ==> Save(c, st, outcome).page.err != ""
    ensures outcome.Failed? && confirmed ==> Delete(c, st, row, confirmed, outcome).page.err != ""
  {
  }

  /** Opening the assignment of a record and saving it unchanged sends exactly its current link ids, in order. */
  lemma UnchangedAssignSendsCurrentIds(c: Api.Collection, st: Page, row: Record, outcome: Api.ApiResult)
    requires HasAssign(c)
    ensures var ids := LinkIds(row);
            DoAssign(c, OpenAssign(st, row), outcome).calls[0]
            == AssignCall(c, row.id, seq(|ids|, i requires 0 <= i < |ids| => JsNumber.Int(ids[i])))
  {
    JsNumber.NumbersOfStrings(LinkIds(row));
  }

  /**
   * After choosing options, saving sends the ids of the chosen options, in
   * option order, and every id sent is the id of a listed option.
   */
  lemma ChosenAssignSendsChosenIds(c: Api.Collection, st: Page, picked: set<int>, outcome: Api.ApiResult)
    requires HasAssign(c) && st.assigning.Some?
    ensures var chosen := Ids(ChosenFrom(st.options, picked, 0));
            DoAssign(c, Choose(st, picked), outcome).calls[0]
            == AssignCall(c, st.assigning.value.id, seq(|chosen|, i requires 0 <= i < |chosen| => JsNumber.Int(chosen[i])))
    ensures forall id :: id in Ids(ChosenFrom(st.options, picked, 0)) ==>
              exists i :: 0 <= i < |st.options| && i in picked && st.options[i].id == id
    ensures forall i :: 0 <= i < |st.options| && i in picked ==> st.options[i].id in Ids(ChosenFrom(st.options, picked, 0))
  {
    var chosen := ChosenFrom(st.options, picked, 0);
    ChosenInListOrder(st.options, picked, 0);
    JsNumber.NumbersOfStrings(Ids(chosen));
    forall id | id in Ids(chosen)
      ensures exists i :: 0 <= i < |st.options| && i in picked && st.options[i].id == id
    {
      var k :| 0 <= k < |chosen| && Ids(chosen)[k] == id;
      assert chosen[k] in chosen;
      var i :| 0 <= i < |st.options| && 0 + i in picked && st.options[i] == chosen[k];
      assert st.options[i].id == id;
    }
    forall i | 0 <= i < |st.options| && i in picked
      ensures st.options[i].id in Ids(chosen)
    {
      assert 0 + i in picked;
      assert st.options[i] in chosen;
      var k :| 0 <= k < |chosen| && chosen[k] == st.options[i];
      assert Ids(chosen)[k] == st.options[i].id;
    }
  }

  /** A failed assignment keeps the dialog open on the same record and keeps the selection. */
  lemma FailedAssignKeepsDialog(c: Api.Collection, st: Page, message: string)
    requires HasAssign(c) && st.assigning.Some?
    ensures var r := DoAssign(c, st, Api.Failed(message)).page;
            r.assigning == st.assigning && r.selected == st.selected
  {
  }

  /**
   * A reload shows exactly what the server listed: the page's own list as
   * its rows and, on the pages that assign, the second list as the choices;
   * the form, the dialog, the selection and the error are kept.
   */
  lemma ReloadShowsServerLists(c: Api.Collection, st: Page, primary: seq<Record>, secondary: seq<Record>)
    ensures var p := LoadDone(c, Load(c, st).page, Loaded(Some(primary), Some(secondary)));
            && p.rows == primary
            && (HasAssign(c) ==> p.options == secondary)
            && (!HasAssign(c) ==> p.options == st.options)
            && p.(rows := st.rows, options := st.options) == st
  {
  }

  /** A successful save followed by its reload leaves a blank form showing the server's rows. */
  lemma SaveThenReloadShowsServerRows(c: Api.Collection, st: Page, data: Json, primary: seq<Record>, secondary: seq<Record>)
    ensures var p := LoadDone(c, Save(c, st, Api.Done(data)).page, Loaded(Some(primary), Some(secondary)));
            && p.rows == primary && p.title == "" && p.text == "" && p.editing == None && p.err == st.err
  {
  }

  /** Cancelling the dialog and opening it again on a record is the same as opening it directly. */
  lemma CancelThenReopen(st: Page, row: Record)
    ensures OpenAssign(CloseAssign(st), row) == OpenAssign(st, row)
  {
  }

  /**
   * The mount-time `load()`: from the initial state, a successful load shows
   * the server's lists under a blank form with no dialog, selection or
   * error, and a failed one shows a non-empty error over empty lists.
   */
  lemma MountShowsServerLists(c: Api.Collection, primary: seq<Record>, secondary: seq<Record>, message: string)
    ensures Load(c, Initial).calls == LoadCalls(c)
    ensures var p := LoadDone(c, Load(c, Initial).page, Loaded(Some(primary), Some(secondary)));
            && p.rows == primary
            && p.options == (if HasAssign(c) then secondary else [])
            && p.title == "" && p.text == "" && p.editing == None
            && p.assigning == None && p.selected == [] && p.err == ""
    ensures var p := LoadDone(c, Load(c, Initial).page, LoadFailed(message));
            && p.rows == [] && p.options == []
            && p.err == (if message != "" then message else LoadFailure(c)) && p.err != ""
  {
  }
}
