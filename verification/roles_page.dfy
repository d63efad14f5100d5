/**
 * The roles page (src/pages/RolesPage.js): list roles with their
 * permissions, create or edit a role's name and description, delete a role
 * after confirmation, and replace the set of permissions granted to a role.
 *
 * Resetting and filling the form, opening the assignment dialog, the
 * permissions select and the permissions column are shared with the users
 * page and defined once in `Crud` (`ResetForm`, `Edit`, `OpenAssign`,
 * `Choose`, `LinksCell`).
 */
module RolesPage {
  import opened Wrappers
  import opened JsValue
  import JsNumber
  import Api
  import Crud

  /** `{ name, description: desc }` */
  function RoleBody(name: string, description: string): Json {
    JObj(map["name" := JStr(name), "description" := JStr(description)])
  }

  /** `load`: roles and permissions, fetched together. */
  const Reload := [Api.Call("/roles", Api.NoOptions), Api.Call("/permissions", Api.NoOptions)]

  function Load(st: Crud.Page): (r: Crud.Step)
    ensures r.page == st && r.calls == Reload
  {
    Crud.Load(Api.Roles, st)
  }

  function LoadDone(st: Crud.Page, outcome: Crud.Loaded): (r: Crud.Page)
    ensures outcome.Loaded? ==>
              r == st.(rows := outcome.primary.GetOr([]), options := outcome.secondary.GetOr([]))
    ensures outcome.Loaded? && outcome.primary.None? ==> r.rows == []
    ensures outcome.Loaded? && outcome.secondary.None? ==> r.options == []
    ensures outcome.LoadFailed? ==>
              r == st.(err := if outcome.message != "" then outcome.message else "Failed to load")
  {
    Crud.LoadDone(Api.Roles, st, outcome)
  }

  /**
   * `onSave`: PUT `/roles/<id>` of the edited role, or POST `/roles` when
   * none is edited, with the form's name and description; on success clear the
   * form and reload, on failure keep the form and show the error.
   */
  function OnSave(st: Crud.Page, outcome: Api.ApiResult): (r: Crud.Step)
    ensures |r.calls| >= 1
    ensures st.editing.Some? ==>
              r.calls[0] == Api.Call("/roles/" + JsNumber.IntToString(st.editing.value.id),
                                     Api.Options(Some(Api.PUT), Some(RoleBody(st.title, st.text)), None))
    ensures st.editing.None? ==>
              r.calls[0] == Api.Call("/roles", Api.Options(Some(Api.POST), Some(RoleBody(st.title, st.text)), None))
    ensures outcome.Done? ==>
              r.calls[1..] == Reload && r.page == st.(title := "", text := "", editing := None)
    ensures outcome.Failed? ==>
              |r.calls| == 1 &&
              r.page == st.(err := if outcome.message != "" then outcome.message else "Failed to save role")
  {
    Crud.Save(Api.Roles, st, outcome)
  }

  /** `onDelete(role)`: no call and no change unless confirmed; then DELETE `/roles/<id>` and reload on success. */
  function OnDelete(st: Crud.Page, role: Crud.Record, confirmed: bool, outcome: Api.ApiResult): (r: Crud.Step)
    ensures !confirmed ==> r == Crud.Step(st, [])
    ensures confirmed ==>
              |r.calls| >= 1 &&
              r.calls[0] == Api.Call("/roles/" + JsNumber.IntToString(role.id), Api.Options(Some(Api.DELETE), None, None))
    ensures confirmed && outcome.Done? ==> r.page == st && r.calls[1..] == Reload
    ensures confirmed && outcome.Failed? ==>
              |r.calls| == 1 &&
              r.page == st.(err := if outcome.message != "" then outcome.message else "Failed to delete role")
  {
    Crud.Delete(Api.Roles, st, role, confirmed, outcome)
  }

  /**
   * `doAssign`: PUT `/roles/<id>/permissions` with `permission_ids` holding `Number` of
   * every selected value, as the whole set; on success close the dialog and
   * reload, on failure keep the dialog and selection and show the error.
   */
  function DoAssign(st: Crud.Page, outcome: Api.ApiResult): (r: Crud.Step)
    requires st.assigning.Some?
    ensures |r.calls| >= 1
    ensures r.calls[0] == Api.Call("/roles/" + JsNumber.IntToString(st.assigning.value.id) + "/permissions",
                                   Api.Options(Some(Api.PUT),
                                               Some(JObj(map["permission_ids" := JArr(Api.NumsToJson(JsNumber.MapToNumber(st.selected)))])),
                                               None))
    ensures outcome.Done? ==> r.page == st.(assigning := None) && r.calls[1..] == Reload
    ensures outcome.Failed? ==>
              |r.calls| == 1 &&
              r.page == st.(err := if outcome.message != "" then outcome.message else "Failed to assign permissions")
  {
    Api.ItemPaths(st.assigning.value.id);
    var r := Crud.DoAssign(Api.Roles, st, outcome);
    assert r.calls[0] == Api.AssignPermissionsCall(st.assigning.value.id, JsNumber.MapToNumber(st.selected));
    r
  }
}
