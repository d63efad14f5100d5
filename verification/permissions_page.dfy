/**
 * The permissions page (src/pages/PermissionsPage.js): list permissions,
 * create or edit a permission's name and description, and delete a
 * permission after confirmation. It has no assignment dialog, and its `load`
 * fetches the one list.
 *
 * Resetting and filling the form are shared with the other pages and defined
 * once in `Crud` (`ResetForm`, `Edit`).
 */
module PermissionsPage {
  import opened Wrappers
  import opened JsValue
  import JsNumber
  import Api
  import Crud

  /** `{ name, description: desc }` */
  function PermissionBody(name: string, description: string): Json {
    JObj(map["name" := JStr(name), "description" := JStr(description)])
  }

  /** `load`: the permissions list alone. */
  const Reload := [Api.Call("/permissions", Api.NoOptions)]

  function Load(st: Crud.Page): (r: Crud.Step)
    ensures r.page == st && r.calls == Reload
  {
    Crud.Load(Api.Permissions, st)
  }

  /** The end of `load`; the page has no second list, so only the rows change. */
  function LoadDone(st: Crud.Page, outcome: Crud.Loaded): (r: Crud.Page)
    ensures outcome.Loaded? ==> r == st.(rows := outcome.primary.GetOr([]))
    ensures outcome.Loaded? && outcome.primary.None? ==> r.rows == []
    ensures outcome.LoadFailed? ==>
              r == st.(err := if outcome.message != "" then outcome.message else "Failed to load permissions")
  {
    Crud.LoadDone(Api.Permissions, st, outcome)
  }

  /**
   * `onSave`: PUT `/permissions/<id>` of the edited permission, or POST
   * `/permissions` when none is edited, with the form's name and description;
   * on success clear the form and reload, on failure keep the form and show
   * the error.
   */
  function OnSave(st: Crud.Page, outcome: Api.ApiResult): (r: Crud.Step)
    ensures |r.calls| >= 1
    ensures st.editing.Some? ==>
              r.calls[0] == Api.Call("/permissions/" + JsNumber.IntToString(st.editing.value.id),
                                     Api.Options(Some(Api.PUT), Some(PermissionBody(st.title, st.text)), None))
    ensures st.editing.None? ==>
              r.calls[0] == Api.Call("/permissions", Api.Options(Some(Api.POST), Some(PermissionBody(st.title, st.text)), None))
    ensures outcome.Done? ==>
              r.calls[1..] == Reload && r.page == st.(title := "", text := "", editing := None)
    ensures outcome.Failed? ==>
              |r.calls| == 1 &&
              r.page == st.(err := if outcome.message != "" then outcome.message else "Failed to save permission")
  {
    Crud.Save(Api.Permissions, st, outcome)
  }

  /** `onDelete(p)`: no call and no change unless confirmed; then DELETE `/permissions/<id>` and reload on success. */
  function OnDelete(st: Crud.Page, p: Crud.Record, confirmed: bool, outcome: Api.ApiResult): (r: Crud.Step)
    ensures !confirmed ==> r == Crud.Step(st, [])
    ensures confirmed ==>
              |r.calls| >= 1 &&
              r.calls[0] == Api.Call("/permissions/" + JsNumber.IntToString(p.id), Api.Options(Some(Api.DELETE), None, None))
    ensures confirmed && outcome.Done? ==> r.page == st && r.calls[1..] == Reload
    ensures confirmed && outcome.Failed? ==>
              |r.calls| == 1 &&
              r.page == st.(err := if outcome.message != "" then outcome.message else "Failed to delete permission")
  {
    Crud.Delete(Api.Permissions, st, p, confirmed, outcome)
  }

  /** A confirmed delete answered with 204 No Content counts as success and reloads the list. */
  lemma NoContentDeleteReloads(st: Crud.Page, p: Crud.Record, statusText: string, text: string,
                               parse: string -> Api.Parsed)
    ensures var res := Api.Classify(Api.Response(204, statusText, text), parse);
            OnDelete(st, p, true, res).calls[1..] == Reload && OnDelete(st, p, true, res).page.err == st.err
  {
  }
}
