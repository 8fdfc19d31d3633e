/** Keeping the privacy table's columns in step with phpBB's custom profile
    fields: a column `pf_<ident>` is added when a field is created, and on
    every visit to the profile-field administration page the columns that no
    longer exist in phpBB's profile-data table are dropped. */
module AcpListener {
  import opened Privacy

  /** The default of a freshly added profile column: Members. */
  const NewColumnDefault: int := 1

  /** The only column `check_columns` spares, as written. */
  const KeptColumns: set<string> := {BdayColumn}

  /** The privacy columns that belong to the board rather than to a profile
      field, none of which exists in phpBB's profile-data table. */
  const BoardColumns: set<string> := {BdayColumn, "online", "pm", "email"}

  /** Adds the privacy column of a profile field when the field is created. */
  function ModifyProfileColumns(action: string, ident: string, schema: Schema): (r: Schema)
    ensures action == "create" ==> r.Keys == schema.Keys + {ProfileColumn(ident)}
    ensures action == "create" ==> LevelOf(r[ProfileColumn(ident)]) == Members
    ensures forall c :: c in schema && c != ProfileColumn(ident) ==> c in r && r[c] == schema[c]
    ensures action != "create" ==> r == schema
  {
    if action == "create" then schema[ProfileColumn(ident) := NewColumnDefault] else schema
  }

  /** What adding the column does to the rows already in the privacy table:
      each one gains the new column at its default. */
  function ModifyProfileRows(action: string, ident: string, t: Table): (r: Table)
    ensures r.Keys == t.Keys
    ensures action == "create" ==> forall p :: p in t ==>
      r[p].Keys == t[p].Keys + {ProfileColumn(ident)} && LevelOf(r[p][ProfileColumn(ident)]) == Members
    ensures forall p, c :: p in t && c in t[p] && c != ProfileColumn(ident) ==> c in r[p] && r[p][c] == t[p][c]
    ensures action != "create" ==> r == t
  {
    if action == "create" then map p | p in t :: t[p][ProfileColumn(ident) := NewColumnDefault] else t
  }

  /** Rows inserted later and rows already present agree on the new column:
      both start at the column default. */
  lemma ExistingRowsMatchNewColumn(ident: string, schema: Schema, t: Table, p: nat)
    requires p in t
    ensures ModifyProfileRows("create", ident, t)[p][ProfileColumn(ident)]
         == ModifyProfileColumns("create", ident, schema)[ProfileColumn(ident)]
  {
  }

  /** The columns of `schema` that survive pruning against phpBB's columns,
      sparing the columns in `keep`. */
  function Prune(phpbb: set<string>, schema: Schema, keep: set<string>): Schema
  {
    map c | c in schema && (c in phpbb || c in keep) :: schema[c]
  }

  /** The loop of `check_columns`: walks the privacy columns missing from
      phpBB's table and drops each one not in `keep`. */
  method PruneColumns(phpbb: set<string>, schema: Schema, keep: set<string>) returns (r: Schema)
    ensures r.Keys <= schema.Keys
    ensures forall c :: c in r ==> r[c] == schema[c]
    ensures forall c :: c in schema ==> (c in r <==> c in phpbb || c in keep)
    ensures r == Prune(phpbb, schema, keep)
  {
    r := schema;
    var extra := schema.Keys - phpbb;
    ghost var visited: set<string> := {};
    while extra != {}
      invariant extra + visited == schema.Keys - phpbb
      invariant extra !! visited
      invariant r.Keys == schema.Keys - (visited - keep)
      invariant forall c :: c in r ==> r[c] == schema[c]
      decreases extra
    {
      var c :| c in extra;
      if c !in keep {
        r := r - {c};
      }
      extra := extra - {c};
      visited := visited + {c};
    }
  }

  /** `check_columns` as written: only `bday_age` is spared. */
  method CheckColumns(phpbb: set<string>, schema: Schema) returns (r: Schema)
    ensures forall c :: c in r ==> c in schema && r[c] == schema[c]
    ensures forall c :: c in schema && c in phpbb ==> c in r
    ensures BdayColumn in schema ==> BdayColumn in r
    ensures forall c :: c in schema && c !in phpbb && c != BdayColumn ==> c !in r
    ensures r == Prune(phpbb, schema, KeptColumns)
  {
    r := PruneColumns(phpbb, schema, KeptColumns);
  }

  /** `check_columns` with every board column spared. */
  method CheckColumnsCorrected(phpbb: set<string>, schema: Schema) returns (r: Schema)
    ensures forall c :: c in r ==> c in schema && r[c] == schema[c]
    ensures forall c :: c in schema && (c in phpbb || c in BoardColumns) ==> c in r
    ensures forall c :: c in schema && c !in phpbb && c !in BoardColumns ==> c !in r
    ensures r == Prune(phpbb, schema, BoardColumns)
  {
    r := PruneColumns(phpbb, schema, BoardColumns);
  }

  /** Pruning twice against the same phpBB columns prunes nothing more. */
  lemma PruneIdempotent(phpbb: set<string>, schema: Schema, keep: set<string>)
    ensures Prune(phpbb, Prune(phpbb, schema, keep), keep) == Prune(phpbb, schema, keep)
  {
  }

  /** Pruning against two snapshots of phpBB's columns gives the same result in either order. */
  lemma PruneCommutes(p1: set<string>, p2: set<string>, schema: Schema, keep: set<string>)
    ensures Prune(p1, Prune(p2, schema, keep), keep) == Prune(p2, Prune(p1, schema, keep), keep)
  {
  }

  /** As written, the board's `online`, `pm` and `email` columns are dropped
      on every visit, because phpBB's profile-data table never has them. */
  lemma CheckColumnsDropsBoardColumns()
    ensures Prune({UserIdColumn, "pf_location"},
                  map["online" := 1, BdayColumn := 1, "pm" := 1, "email" := 1, "pf_location" := 1],
                  KeptColumns)
         == map[BdayColumn := 1, "pf_location" := 1]
    ensures Prune({UserIdColumn, "pf_location"},
                  map["online" := 1, BdayColumn := 1, "pm" := 1, "email" := 1, "pf_location" := 1],
                  BoardColumns)
         == map["online" := 1, BdayColumn := 1, "pm" := 1, "email" := 1, "pf_location" := 1]
  {
    var s := map["online" := 1, BdayColumn := 1, "pm" := 1, "email" := 1, "pf_location" := 1];
    assert "online" != "pf_location" && "pm" != "pf_location" && "email" != "pf_location";
    assert "online" != UserIdColumn && "pm" != UserIdColumn && "email" != UserIdColumn;
    assert Prune({UserIdColumn, "pf_location"}, s, KeptColumns).Keys == {BdayColumn, "pf_location"};
  }

  /** The column added for a new profile field survives pruning once phpBB
      has the field's data column, and starts at Members. */
  lemma CreatedColumnSurvives(ident: string, phpbb: set<string>, schema: Schema, keep: set<string>)
    requires ProfileColumn(ident) in phpbb
    ensures ProfileColumn(ident) in Prune(phpbb, ModifyProfileColumns("create", ident, schema), keep)
    ensures Prune(phpbb, ModifyProfileColumns("create", ident, schema), keep)[ProfileColumn(ident)] == NewColumnDefault
  {
  }
}
