# Profile Privacy — a Dafny model of the visibility filter

This project models the core of the phpBB extension "Profile Privacy". Each user stores one privacy level per column of the extension's table `profile_privacy_ext`. There is one column per custom profile field (`pf_<ident>`), plus the board columns `bday_age`, `online`, `pm` and `email`. The levels are 0 Public, 1 Members, 2 Friends and 3 Hidden.

When phpBB renders profile data, listeners decide which values the current viewer gets. The decision uses:
- the owner's level;
- the zebra (friend/foe) mark the **owner** has put on the viewer;
- the kind of viewer: staff, the guest id 1, or a registered id.

The model is six modules, one per source file plus a shared vocabulary:

- `Privacy` (privacy.dfy): the shared data model. It defines `Level`, `Rel` and the zebra row and its classification. It also defines the privacy row and table, the profile `FieldData` (PHP null is `None`), and the `pf_` column naming.
- `GeneralListener` (general_listener.dfy): the current filter (event/general_listener.php). It has:
  - the viewer reduction;
  - `reverse_zebra`;
  - the rule itself. `Admits` is the level table. `MaySee` adds the overrides: staff see everything, the owner sees their own data, and a foe of the owner sees nothing.
  - its three projections: the profile fields of all users on a page, the AGE value on a profile page, and the birthday list of the board index.
- `MainListener` (main_listener.dfy): the older filter, modelled as written. It blanks values with `''` instead of copying them back.
- `AcpListener` (acp_listener.dfy): adding the `pf_` column when a profile field is created, and `check_columns` pruning.
- `UcpController` (ucp_controller.dfy): the settings page. It covers sanitising the submitted levels, the UPDATE of the user's own row, and the list of form entries.
- `UcpListener` (ucp_listener.dfy): inserting the user's settings row if it is absent.

Database reads are inputs. A query either fails (`Query.Failed`, the path where `run_sql` throws) or answers with rows. Zebra lookups are a table plus the set of (owner, viewer) pairs whose query fails. The outcome of the staff permission test, the CSRF form-key test and the parsed request values are plain parameters.

The current filter and the older one apply different rules. The proofs relate each projection to the rule:
- `FilterProfileFields`, `FilterAge` and `KeepBirthdays`/`FilterBirthdays` state their results in terms of `MaySee`.
- `ProjectionsAgree` shows that the three projections show or hide a user's `bday_age` together.
- `BlanksVersusCurrentRule` pins down where the older listener departs from the newer one.

## Model

| member | source | states |
|---|---|---|
| Privacy.LevelOf | event/general_listener.php:133-160 | Stored 0, 1 and 2 read as Public, Members and Friends; 3 and every other number read as Hidden. |
| Privacy.LevelRoundTrip | event/general_listener.php:133-160 | The number a level is stored as reads back as that level. |
| Privacy.Classify | event/general_listener.php:449-460 | A zebra row with foe flag '1' is a foe even if the friend flag is set; otherwise friend flag '1' is a friend; otherwise no relationship. |
| Privacy.ProfileColumnFacts | controller/ucp_controller.php:178 | The `pf_` naming is injective and never names `user_id` or a board column. |
| GeneralListener.ViewerOf | event/general_listener.php:67-81 | Staff are privileged; unregistered users and bots become the guest; any other user keeps their own id. |
| GeneralListener.Uid | event/general_listener.php:73-81 | The guest is compared as id 1, a registered viewer by their own id. |
| GeneralListener.ReverseZebra | event/general_listener.php:432-461 | Foe exactly when the (user, zebra) query succeeds with foe '1'. Friend exactly when it succeeds with friend '1' and no foe flag. A query error or a missing row is no relationship. |
| GeneralListener.Relation | event/general_listener.php:113-114 | Viewer id 1 is never looked up and is always unrelated. For any other viewer the edge is looked up from owner to viewer: foe exactly when that query succeeds with foe '1', friend exactly when it succeeds with friend '1' and no foe flag. |
| GeneralListener.Admits | event/general_listener.php:133-160 | The level table of the per-field `switch`: Public admits everyone, Members admits ids above the guest id 1, Friends admits exactly a viewer the owner marks as friend, and Hidden (with every other stored value) admits nobody. |
| GeneralListener.MaySee | event/general_listener.php:107-160 | The per-field decision: staff see everything, the owner sees their own data, a viewer the owner marks as foe sees nothing, and anyone else sees what `Admits` allows for the stored level. |
| GeneralListener.MonotoneInLevel | event/general_listener.php:133-160 | A stricter level never shows a column that a looser level hides. |
| GeneralListener.GuestSeesOnlyPublic | event/general_listener.php:133-160 | The guest sees another user's column exactly when it is Public. |
| GeneralListener.FriendshipOnlyGrants | event/general_listener.php:149-154 | Being the owner's friend never hides a column, and it is what reveals a Friends column. |
| GeneralListener.FilterProfileFields | event/general_listener.php:59-168 | See the notes after this table. |
| GeneralListener.ProfileFieldsHideFromFoes | event/general_listener.php:124-129 | When the owner has marked the viewer as a foe, the owner is absent from the output unless the owner is the viewer. |
| GeneralListener.FilterAge | event/general_listener.php:176-267 | The result is the age or ''. Staff and the owner always get the age. A failed query or a missing row gives ''. Otherwise the age is shown exactly when the rule admits the stored `bday_age`. |
| GeneralListener.BirthdayLevel | event/general_listener.php:353-357 | A listed user with a settings row reads at its stored level. A user without one reads as `missing`: Public in the filter as written, because the null lookup matches `case 0`, and Hidden in the corrected filter. |
| GeneralListener.ShownPositions | event/general_listener.php:331-381 | The positions of the birthday rows whose owner the rule shows, strictly increasing: a position is listed exactly when the rule shows its owner's birthday. |
| GeneralListener.KeepBirthdays | event/general_listener.php:331-381 | The kept entries are an order-preserving subsequence of the list. Position by position, the k-th kept entry is the entry of the k-th row whose owner the rule shows, so a repeated entry is kept once per shown row. Hence every shown entry is kept and every kept entry belongs to an owner the rule shows. |
| GeneralListener.FilterBirthdays | event/general_listener.php:275-383 | Same as KeepBirthdays, position by position, plus: an empty list or a staff viewer leaves the list unchanged, and a failed query empties it. A user without a settings row reads as Public. |
| GeneralListener.FilterBirthdaysFailClosed | event/general_listener.php:275-383 | The corrected birthday filter, which reads a missing row as Hidden like the age filter does (event/general_listener.php:221). Position by position, it keeps exactly the rows the rule shows under that reading. Every kept entry is the viewer's own or belongs to a user with a settings row. |
| GeneralListener.BirthdayWithoutSettingsRowShown | event/general_listener.php:353-357 | As written, a guest sees the birthday of a user without a settings row; the corrected filter hides it. |
| GeneralListener.ProjectionsAgree | event/general_listener.php:235-262 | For another user with a `bday_age` setting, three things are shown or hidden together: the age, the birthday entry and the `bday_age` column of the profile-field filter. |
| MainListener.ReverseZebra | event/main_listener.php:141-164 | Same classification as the newer listener: foe beats friend, and a missing row is no relationship. |
| MainListener.Relation | event/main_listener.php:76 | Viewer id 1 is never looked up and is always unrelated. For any other viewer the owner's row about the viewer decides: foe exactly when its foe flag is '1', friend exactly when its friend flag is '1' and its foe flag is not. |
| MainListener.Blanks | event/main_listener.php:85-128 | The older listener's per-column decision as written: a foe loses every column; otherwise level 1 blanks for the guest only, level 2 blanks for the owner's friend, level 3 always blanks, and 0 or an out-of-range value (no `default`) keeps the value. |
| MainListener.BlanksIntended | event/main_listener.php:113-120 | The minimal correction of the Friends case: level 2 blanks exactly for viewers who are not the owner's friend, and every other case is as written, including keeping out-of-range values. |
| MainListener.BlanksIntendedMatchesCurrentRule | event/main_listener.php:96-128 | For stored levels 0..3 and any real user other than the owner, the corrected decision blanks exactly what the newer listener's rule would not show. |
| MainListener.BlanksVersusCurrentRule | event/main_listener.php:96-128 | Against the newer rule directly: as written, levels 0, 1 and 3 and the foe case agree with it. Level 2 is inverted for every non-foe viewer. An out-of-range level is kept here but hidden by the newer rule. |
| MainListener.FriendsColumnInverted | event/main_listener.php:113-120 | Concrete case: a friend loses a Friends column while an unrelated member keeps it. |
| MainListener.SubjectAfter | event/main_listener.php:66-130 | One visited user's entry after the loop: every column the decision blanks reads '', a column it keeps holds its original value, and columns outside the privacy row or `user_id` are never touched. A user the loop skips keeps the entry unchanged. |
| MainListener.FilterProfileFields | event/main_listener.php:53-133 | See the notes after this table. |
| MainListener.FoeLosesEveryColumn | event/main_listener.php:87-92 | When the owner has marked the viewer as a foe, every privacy column of the owner reads ''. |
| AcpListener.ModifyProfileColumns | event/acp_listener.php:54-64 | On `create` the column set gains exactly `pf_<ident>`, starting at Members, and other columns keep their defaults. Any other action leaves the set unchanged. |
| AcpListener.ModifyProfileRows | event/acp_listener.php:60-63 | On `create` every existing row gains `pf_<ident>` at Members and keeps its other values. Any other action leaves the rows unchanged. |
| AcpListener.ExistingRowsMatchNewColumn | event/acp_listener.php:62 | Existing rows and rows inserted later start the new column at the same default. |
| AcpListener.PruneColumns | event/acp_listener.php:74-83 | The removal loop keeps a column exactly when phpBB's table has it or it is spared. Kept columns keep their defaults. The result does not depend on the order of removal. |
| AcpListener.CheckColumns | event/acp_listener.php:70-84 | See the notes after this table. |
| AcpListener.CheckColumnsCorrected | event/acp_listener.php:70-84 | Pruning that spares every board column (`bday_age`, `online`, `pm`, `email`). |
| AcpListener.PruneIdempotent | event/acp_listener.php:70-84 | Pruning twice against the same columns prunes nothing more. |
| AcpListener.PruneCommutes | event/acp_listener.php:70-84 | Pruning against two snapshots of phpBB's columns gives the same result in either order. |
| AcpListener.CheckColumnsDropsBoardColumns | event/acp_listener.php:74-83 | Concrete case: `online`, `pm` and `email` are dropped as written and kept by the corrected pruning. |
| AcpListener.CreatedColumnSurvives | event/acp_listener.php:56-63 | A column added for a new field survives pruning once phpBB has the field's data column, and keeps its default 1. |
| UcpController.Submitted | controller/ucp_controller.php:86 | A column that was not submitted reads as Members (1). |
| UcpController.Sanitize | controller/ucp_controller.php:86-91 | The stored value is in 0..3. In-range values are stored unchanged; anything below 0 or above 3 becomes 3 (Hidden). |
| UcpController.SanitizeKeepsMeaning | controller/ucp_controller.php:86-91 | Sanitising never changes the level the current listener reads (through `LevelOf`), and the stored number reads back exactly. |
| UcpController.DisplayOptions | controller/ucp_controller.php:57-122 | See the notes after this table. |
| UcpController.ApplyUpdate | controller/ucp_controller.php:95-100 | The UPDATE changes only the current user's row, and only in the submitted columns. |
| UcpController.SaveSettings | controller/ucp_controller.php:66-100 | A valid submission leaves the user's row with every submitted column in 0..3, read by the listeners as the level the user asked for. `user_id`, columns outside the list and other users' rows are unchanged. Without a valid submission the table is unchanged. |
| UcpController.SettingsForm | controller/ucp_controller.php:142-185 | The page lists `online` and `bday_age`, then one entry `pf_<ident>` per field in order. Each entry, board or profile, carries the user's stored value of its column, or null. |
| UcpController.FormNamesCreatedColumns | controller/ucp_controller.php:178 | Each form entry names the column the administration listener added for that field, and distinct fields name distinct columns. |
| UcpListener.NewRow | event/ucp_listener.php:60 | An insert of only `user_id` gives a row in which every level column holds its default. |
| UcpListener.CreateProfileEntry | event/ucp_listener.php:51-63 | Afterwards the user has a row. An existing row leaves the table unchanged. Other users' rows are untouched. |
| UcpListener.CreateProfileEntryIdempotent | event/ucp_listener.php:51-63 | Calling it twice has the effect of calling it once. |
| UcpListener.NewRowStartsAtMembers | event/ucp_listener.php:60 | A row inserted after a profile field was created holds Members for that field. |
| UcpListener.EntryEnablesSelfView | event/general_listener.php:103-111 | Once the row exists, a registered user viewing their own profile gets every one of their own fields back. |

Notes on four contracts that are too long for the table:
- `GeneralListener.FilterProfileFields`:
  - An empty id list or a staff viewer gets the data unchanged.
  - A failed privacy query gives empty data.
  - Otherwise only requested users with a privacy row appear.
  - Every value is the original one, or null.
  - Another user's column appears exactly when the rule admits its level.
  - The viewer keeps all their own original fields, as long as they have a privacy row.
- `MainListener.FilterProfileFields`:
  - The viewer's own entry is untouched, and nothing is removed.
  - Each value is the original one or ''.
  - Users the loop does not visit are untouched.
  - A column the as-written decision blanks reads ''; every other column keeps its value.
- `AcpListener.CheckColumns`: the result is a subset of the privacy columns with unchanged defaults. Every column phpBB's profile-data table also has is kept, and so is `bday_age`. Every other column is removed.
- `UcpController.DisplayOptions`:
  - Without a submission nothing happens.
  - An invalid form key gives the error FORM_INVALID and no update.
  - Otherwise there is one update, of the current user's row. It covers every column except `user_id`, each value sanitised into 0..3.

Other behaviours of the code that the model follows:
- The code looks up one zebra edge per subject, from owner to viewer (event/general_listener.php:114).
- The birthday list shows users without a settings row (see Findings).
- The older listener's filter does not only overwrite existing values. Blanking a privacy column that the field data lacks, such as `bday_age`, adds that column with ''. A visited user without field data gets a new entry holding only ''. `MainListener.FilterProfileFields` states this as written: existing values are kept or blanked, and new entries hold ''.

## Left out

- `run_sql`, logging, `sql_return_on_error` and result-set iteration. A query is modelled as failing or answering. The three listener filters do not depend on the order of rows.
- The SQL errors of the older listener, the settings page and the row insert. These code paths have no error handling, so phpBB's own error page ends the request. The model assumes their queries are answered.
- A duplicate column: adding `pf_<ident>` when the column already exists fails in the database. The model overwrites the default instead.
- Request parsing: the request object casts a submitted string to an integer, and a non-numeric string becomes 0. The model takes the integers as given.
- CSRF key generation and checking is a boolean input. Template assignment is not modelled, except for the AGE value and the list of settings-page entries.
- The other template values of the profile page are not modelled. The age filter leaves them as they are.
- Self-copy when the viewer has no field data: PHP stores null for their entry, and the model stores an empty entry. phpBB reads both the same way.
- GeneralListener.FilterProfileFields: for the viewer's own entry, the contract states only that every original field is kept with its value. Self-view also adds the viewer's admitted privacy columns with null values, and the contract does not list those.
- GeneralListener.MonotoneInLevel: assumes the viewer's id is not 0. phpBB has no user 0, and for such an id a Friends column could show where a Members column hides.
- The private-message and e-mail permission checks are not modelled. Their columns exist, but the code contains no evaluator for them.
- The migrations (`install_schema`, `install_schema_v2`, `install_ucp_module`, `prep_profile_data`) are not modelled. They provision the schema through phpBB's migration framework. The paging in `prep_profile_data` is nondeterministic because it has no ORDER BY.
- Module registration and language strings are not modelled.
- `Birthday(userId, entry)` joins each birthday row with its template entry. The code keeps them in two arrays, `$event['rows']` and `$event['birthdays']`, and finds an entry by the row's key (event/general_listener.php:331,338,357). The model assumes phpBB builds the two arrays in step.

## Findings

| source | as written | input that shows it | evidently intended | confidence | as-written member | corrected member |
|---|---|---|---|---|---|---|
| event/main_listener.php:113-120 | A Friends-level (2) column is blanked when the owner lists the viewer as a friend, and kept for everyone else. | Viewer 5 is the owner's friend and the column is stored at 2: the friend gets '', while an unrelated member sees the value. | Blank the column for everyone except the owner's friends, as the newer listener does. The correction leaves the other cases, including the kept out-of-range values, as written. | high; not executed | MainListener.FilterProfileFields (exhibited by MainListener.FriendsColumnInverted) | MainListener.BlanksIntended (with MainListener.BlanksIntendedMatchesCurrentRule) |
| event/acp_listener.php:74-83 | Every privacy column missing from phpBB's profile-data table is dropped except `bday_age`. That includes the board columns `online`, `pm` and `email`, although migrations/install_schema_v2.php:50 asks for this list to be extended. | Privacy columns {online, bday_age, pm, email, pf_location} and phpBB columns {user_id, pf_location}: `online`, `pm` and `email` are dropped. | Spare every board column. | medium; not executed | AcpListener.CheckColumns (exhibited by AcpListener.CheckColumnsDropsBoardColumns) | AcpListener.CheckColumnsCorrected |
| event/general_listener.php:353-357 | A listed user without a settings row reads as null. PHP's loose `switch` matches null to `case 0`, so the birthday is shown to everyone except the owner's foes. | A guest and user 2 with no settings row: user 2's birthday is shown. | Fail closed, as the age filter does for a missing row (event/general_listener.php:221). | medium; not executed | GeneralListener.FilterBirthdays (exhibited by GeneralListener.BirthdayWithoutSettingsRowShown) | GeneralListener.FilterBirthdaysFailClosed |
