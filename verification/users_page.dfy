/**
 * The users page (src/pages/UsersPage.js): list users with their roles,
 * create or edit a user's email and full name, delete a user after
 * confirmation, and replace the set of roles assigned to a user.
 *
 * Resetting and filling the form, opening the assignment dialog, the roles
 * select and the roles column are shared with the roles page and defined
 * once in `Crud` (`ResetForm`, `Edit`, `OpenAssign`, `Choose`, `LinksCell`).
 */
module UsersPage {
  import opened Wrappers
  import opened JsValue
  import JsNumber
  import Api
  import Crud

  /** `{ email, full_name: fullName }` */
  function UserBody(email: string, fullName: string): Json {
    JObj(map["email" := JStr(email), "full_name" := JStr(fullName)])
  }

  /** `load`: users and roles, fetched together. */
  const Reload := [Api.Call("/users", Api.NoOptions), Api.Call("/roles", Api.NoOptions)]

  function Load(st: Crud.Page): (r: Crud.Step)
    ensures r.page == st && r.calls == Reload
  {
    Crud.Load(Api.Users, st)
  }

  function LoadDone(st: Crud.Page, outcome: Crud.Loaded): (r: Crud.Page)
    ensures outcome.Loaded? ==>
              r == st.(rows := outcome.primary.GetOr([]), options := outcome.secondary.GetOr([]))
    ensures outcome.Loaded? && outcome.primary.None? ==> r.rows == []
    ensures outcome.Loaded? && outcome.secondary.None? ==> r.options == []
    ensures outcome.LoadFailed? ==>
              r == st.(err := if outcome.message != "" then outcome.message else "Failed to load")
  {
    Crud.LoadDone(Api.Users, st, outcome)
  }

  /**
   * `onSave`: PUT `/users/<id>` of the edited user, or POST `/users` when
   * none is edited, with the form's email and full name; on success clear the
   * form and reload, on failure keep the form and show the error.
   */
  function OnSave(st: Crud.Page, outcome: Api.ApiResult): (r: Crud.Step)
    ensures |r.calls| >= 1
    ensures st.editing.Some? ==>
              r.calls[0] == Api.Call("/users/" + JsNumber.IntToString(st.editing.value.id),
                                     Api.Options(Some(Api.PUT), Some(UserBody(st.title, st.text)), None))
    ensures st.editing.None? ==>
              r.calls[0] == Api.Call("/users", Api.Options(Some(Api.POST), Some(UserBody(st.title, st.text)), None))
    ensures outcome.Done? ==>
              r.calls[1..] == Reload && r.page == st.(title := "", text := "", editing := None)
    ensures outcome.Failed? ==>
              |r.calls| == 1 &&
              r.page == st.(err := if outcome.message != "" then outcome.message else "Failed to save user")
  {
    Crud.Save(Api.Users, st, outcome)
  }

  /** `onDelete(u)`: no call and no change unless confirmed; then DELETE `/users/<id>` and reload on success. */
  function OnDelete(st: Crud.Page, u: Crud.Record, confirmed: bool, outcome: Api.ApiResult): (r: Crud.Step)
    ensures !confirmed ==> r == Crud.Step(st, [])
    ensures confirmed ==>
              |r.calls| >= 1 &&
              r.calls[0] == Api.Call("/users/" + JsNumber.IntToString(u.id), Api.Options(Some(Api.DELETE), None, None))
    ensures confirmed && outcome.Done? ==> r.page == st && r.calls[1..] == Reload
    ensures confirmed && outcome.Failed? ==>
              |r.calls| == 1 &&
              r.page == st.(err := if outcome.message != "" then outcome.message else "Failed to delete user")
  {
    Crud.Delete(Api.Users, st, u, confirmed, outcome)
  }

  /**
   * `doAssign`: PUT `/users/<id>/roles` with `role_ids` holding `Number` of
   * every selected value, as the whole set; on success close the dialog and
   * reload, on failure keep the dialog and selection and show the error.
   */
  function DoAssign(st: Crud.Page, outcome: Api.ApiResult): (r: Crud.Step)
    requires st.assigning.Some?
    ensures |r.calls| >= 1
    ensures r.calls[0] == Api.Call("/users/" + JsNumber.IntToString(st.assigning.value.id) + "/roles",
                                   Api.Options(Some(Api.PUT),
                                               Some(JObj(map["role_ids" := JArr(Api.NumsToJson(JsNumber.MapToNumber(st.selected)))])),
                                               None))
    ensures outcome.Done? ==> r.page == st.(assigning := None) && r.calls[1..] == Reload
    ensures outcome.Failed? ==>
              |r.calls| == 1 &&
              r.page == st.(err := if outcome.message != "" then outcome.message else "Failed to assign roles")
  {
    Api.ItemPaths(st.assigning.value.id);
    var r := Crud.DoAssign(Api.Users, st, outcome);
    assert r.calls[0] == Api.AssignRolesCall(st.assigning.value.id, JsNumber.MapToNumber(st.selected));
    r
  }


  /** Creating {email: "a@b.com", full_name: "A B"}: one POST, then the reload; a user without roles shows "-". */
  lemma CreateExample(st: Crud.Page, id: int)
    requires st.editing.None? && st.title == "a@b.com" && st.text == "A B"
    ensures OnSave(st, Api.Done(JNull)).calls ==
              [Api.Call("/users", Api.Options(Some(Api.POST), Some(UserBody("a@b.com", "A B")), None)),
               Api.Call("/users", Api.NoOptions), Api.Call("/roles", Api.NoOptions)]
    ensures Crud.LinksCell(Crud.Record(id, Some("a@b.com"), Some("A B"), Some([]))) == "-"
  {
  }

  /**
   * A user holding roles 1 and 2 whose selection is changed to roles 2 and 3
   * sends `role_ids: [2, 3]`: the new set, not a difference.
   */
  lemma ReplaceExample(st: Crud.Page, u: Crud.Record)
    requires u.links == Some([Crud.Ref(1, Some("a")), Crud.Ref(2, Some("b"))])
    ensures Crud.OpenAssign(st, u).selected == ["1", "2"]
    ensures DoAssign(Crud.OpenAssign(st, u).(selected := ["2", "3"]), Api.Done(JNull)).calls[0].options.body
            == Some(JObj(map["role_ids" := JArr([JNum(2), JNum(3)])]))
  {
    assert JsNumber.IntToString(1) == "1" && JsNumber.IntToString(2) == "2" && JsNumber.IntToString(3) == "3";
    assert JsNumber.MapToNumber(["2", "3"]) == [JsNumber.Int(2), JsNumber.Int(3)] by {
      JsNumber.NumberOfString(2);
      JsNumber.NumberOfString(3);
    }
    assert Api.NumsToJson([JsNumber.Int(2), JsNumber.Int(3)]) == [JNum(2), JNum(3)];
  }
}
