/** The user control panel page where a user sets the level of every privacy
    column: the submitted form is sanitised into levels 0 to 3 and written to
    the user's own row; the page lists the board columns and one entry per
    visible custom profile field. */
module UcpController {
  import opened Privacy
  import AcpListener

  /** The error the page reports for an invalid form key. */
  const FormInvalid: string := "FORM_INVALID"

  /** What the request yields for a column that was not submitted: Members. */
  const RequestDefault: int := 1

  /** One submitted value as the request object returns it, already cast to
      an integer; the default when the column was not submitted. */
  function Submitted(request: map<string, int>, column: string): (v: int)
    ensures column !in request ==> LevelOf(v) == Members
  {
    if column in request then request[column] else RequestDefault
  }

  /** The range check of the settings loop: anything outside 0..3 becomes Hidden. */
  function Sanitize(v: int): (stored: int)
    ensures 0 <= stored <= 3
    ensures 0 <= v <= 3 ==> stored == v
    ensures v < 0 || v > 3 ==> stored == Rank(Hidden)
  {
    if v < 0 || v > 3 then 3 else v
  }

  /** Sanitising never changes the level the current listener reads (through
      `LevelOf`): the stored number means the same level as the submitted
      one, and reads back exactly. */
  lemma SanitizeKeepsMeaning(v: int)
    ensures LevelOf(Sanitize(v)) == LevelOf(v)
    ensures Rank(LevelOf(Sanitize(v))) == Sanitize(v)
  {
  }

  /** What a request to the settings page leads to. */
  datatype Outcome =
    | NotSubmitted
    | Rejected(errors: seq<string>)
    | Update(userId: nat, data: map<string, int>)

  /** Handles the settings page. `columns` is the privacy table's column
      list, `request` the submitted values, `uid` the current user. */
  method DisplayOptions(submitted: bool, formKeyValid: bool, columns: seq<string>,
                        request: map<string, int>, uid: nat) returns (out: Outcome)
    ensures !submitted ==> out == NotSubmitted
    ensures submitted && !formKeyValid ==> out == Rejected([FormInvalid])
    ensures submitted && formKeyValid ==> out.Update? && out.userId == uid
    ensures out.Update? ==> UserIdColumn !in out.data
    ensures out.Update? ==> forall c :: c in columns && c != UserIdColumn ==> c in out.data
    ensures out.Update? ==> forall c :: c in out.data ==> c in columns
    ensures out.Update? ==> forall c :: c in out.data ==> 0 <= out.data[c] <= 3
    ensures out.Update? ==> forall c :: c in out.data ==> out.data[c] == Sanitize(Submitted(request, c))
  {
    if !submitted {
      return NotSubmitted;
    }
    var errors: seq<string> := [];
    if !formKeyValid {
      errors := errors + [FormInvalid];
    }
    var data: map<string, int> := map[];
    var i := 0;
    while i < |columns|
      invariant 0 <= i <= |columns|
      invariant forall c :: c in data <==> c in columns[..i] && c != UserIdColumn
      invariant forall c :: c in data ==> data[c] == Sanitize(Submitted(request, c))
    {
      var column := columns[i];
      if column != UserIdColumn {
        var v := Submitted(request, column);
        if v < 0 || v > 3 {
          v := 3;
        }
        data := data[column := v];
      }
      assert columns[..i + 1] == columns[..i] + [column];
      i := i + 1;
    }
    assert columns[..i] == columns;
    if |errors| == 0 {
      out := Update(uid, data);
    } else {
      out := Rejected(errors);
    }
  }

  /** The UPDATE of the settings page: only the row of `uid` changes, and
      only in the submitted columns. */
  function ApplyUpdate(t: Table, uid: nat, data: map<string, int>): (r: Table)
    ensures r.Keys == t.Keys
    ensures forall p :: p in t && p != uid ==> r[p] == t[p]
    ensures uid in t ==> r[uid].Keys == t[uid].Keys + data.Keys
    ensures uid in t ==> forall c :: c in data ==> r[uid][c] == data[c]
    ensures uid in t ==> forall c :: c in t[uid] && c !in data ==> r[uid][c] == t[uid][c]
  {
    if uid in t then t[uid := t[uid] + data] else t
  }

  /** A request to the settings page followed by the UPDATE it leads to: the
      user's row afterwards holds, for every submitted column, a level in
      0..3 that the current listener reads (through `LevelOf`) as the level
      the user asked for. */
  method SaveSettings(submitted: bool, formKeyValid: bool, columns: seq<string>,
                      request: map<string, int>, t: Table, uid: nat) returns (r: Table)
    ensures r.Keys == t.Keys
    ensures forall p :: p in t && p != uid ==> r[p] == t[p]
    ensures !submitted || !formKeyValid ==> r == t
    ensures submitted && formKeyValid && uid in t ==>
      forall c :: c in columns && c != UserIdColumn ==>
        c in r[uid] && 0 <= r[uid][c] <= 3 && LevelOf(r[uid][c]) == LevelOf(Submitted(request, c))
    ensures uid in t && UserIdColumn in t[uid] ==> UserIdColumn in r[uid] && r[uid][UserIdColumn] == t[uid][UserIdColumn]
    ensures uid in t ==> forall c :: c in t[uid] && c !in columns ==> c in r[uid] && r[uid][c] == t[uid][c]
  {
    var out := DisplayOptions(submitted, formKeyValid, columns, request, uid);
    if out.Update? {
      forall c | c in out.data ensures LevelOf(out.data[c]) == LevelOf(Submitted(request, c)) {
        SanitizeKeepsMeaning(Submitted(request, c));
      }
      r := ApplyUpdate(t, out.userId, out.data);
    } else {
      r := t;
    }
  }

  /** One entry of the settings page: the column it sets and its current value. */
  datatype FormField = FormField(fieldId: string, setting: Option<int>)

  /** The settings page: the board columns, then one entry per custom field. */
  datatype Form = Form(board: seq<FormField>, profile: seq<FormField>)

  /** The stored value of `column` in the user's row; null when the user has
      no row or the row lacks the column. */
  function SettingOf(settings: Option<Row>, column: string): Option<int>
  {
    if settings.Some? && column in settings.value then Some(settings.value[column]) else None
  }

  /** Builds the settings page for the custom fields `idents` (in display
      order) and the user's current row. */
  function SettingsForm(idents: seq<string>, settings: Option<Row>): (form: Form)
    ensures |form.board| == 2 && form.board[0].fieldId == "online" && form.board[1].fieldId == BdayColumn
    ensures form.board[0].setting == SettingOf(settings, "online")
    ensures form.board[1].setting == SettingOf(settings, BdayColumn)
    ensures |form.profile| == |idents|
    ensures forall i :: 0 <= i < |idents| ==> form.profile[i].fieldId == ProfileColumn(idents[i])
    ensures forall i :: 0 <= i < |idents| ==> form.profile[i].setting == SettingOf(settings, ProfileColumn(idents[i]))
  {
    Form([FormField("online", SettingOf(settings, "online")), FormField(BdayColumn, SettingOf(settings, BdayColumn))],
         seq(|idents|, i requires 0 <= i < |idents| => FormField(ProfileColumn(idents[i]), SettingOf(settings, ProfileColumn(idents[i])))))
  }

  /** The settings page names, for every custom field created through the
      administration page, the very column that was added for it, and no
      other field's column. */
  lemma FormNamesCreatedColumns(idents: seq<string>, settings: Option<Row>, schema: Schema, i: nat, j: nat)
    requires i < |idents| && j < |idents|
    ensures SettingsForm(idents, settings).profile[i].fieldId
            in AcpListener.ModifyProfileColumns("create", idents[i], schema)
    ensures SettingsForm(idents, settings).profile[i].fieldId == SettingsForm(idents, settings).profile[j].fieldId
            <==> idents[i] == idents[j]
  {
    ProfileColumnFacts(idents[i], idents[j]);
  }
}
