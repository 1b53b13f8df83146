/** The server's data layer (server.js): each JSON "file" of the app is one
    row of the `app_data` table, keyed by file name. Array files are
    coerced to arrays on the way in and on the way out, writes are
    last-write-wins upserts, and database initialisation inserts a default
    document only for the files that have none. */
module AppData {
  import opened JsValues

  const ArrayFiles: seq<string> := ["products.json", "orders.json", "categories.json", "authorizations.json", "change_history.json"]
  const ProfilesFile := "profiles.json"
  const ConfigFile := "config.json"

  /** `arrayFiles.includes(filename)`. */
  predicate IsArrayFile(filename: string) {
    filename in ArrayFiles
  }

  /** `typeof data === 'object' && Object.keys(data).length === 0` for a
      value that is not null. */
  predicate IsEmptyObject(data: Json) {
    data.Obj? && |data.members| == 0
  }

  /** The normalisation shared by getData and setData: an array file holds
      an array, whatever was given. */
  function Coerce(filename: string, data: Json): (r: Json)
    ensures IsArrayFile(filename) ==> r == if data.Arr? then data else Arr([])
    ensures !IsArrayFile(filename) ==> r == data
  {
    if IsArrayFile(filename) then
      if !Truthy(data) || (data.Obj? && !data.Arr? && |data.members| == 0) then Arr([])
      else if !data.Arr? then Arr([])
      else data
    else data
  }

  /** Coercing twice is coercing once. */
  lemma CoerceIdempotent(filename: string, data: Json)
    ensures Coerce(filename, Coerce(filename, data)) == Coerce(filename, data)
  {
  }

  datatype Validation = Valid | Invalid(error: string) | ValidationThrows

  /** `validateData(filename, data)`; ValidationThrows where
      `Object.keys(null)` raises a TypeError. */
  function ValidateData(filename: string, data: Json): (r: Validation)
    ensures r.ValidationThrows? <==> IsArrayFile(filename) && data == Null
    ensures r.Valid? <==>
      (IsArrayFile(filename) ==> data.Arr? || IsEmptyObject(data)) &&
      (filename == ProfilesFile ==> Truthy(data) && Property(data, "locales").Arr?) &&
      (filename == ConfigFile ==> Truthy(data) && Property(data, "lastOrderNumber").Num?)
    ensures r.Invalid? && IsArrayFile(filename) ==> r.error == filename + " debe ser un array"
  {
    DocumentFilesAreNotArrays();
    if IsArrayFile(filename) && !data.Arr? && data == Null then ValidationThrows
    else if IsArrayFile(filename) && !data.Arr? && !(data.Obj? && |data.members| == 0) then
      Invalid(filename + " debe ser un array")
    else if filename == ProfilesFile && (!Truthy(data) || !Truthy(Property(data, "locales")) || !Property(data, "locales").Arr?) then
      Invalid("profiles.json debe tener estructura con locales array")
    else if filename == ConfigFile && (!Truthy(data) || !Property(data, "lastOrderNumber").Num?) then
      Invalid("config.json debe tener lastOrderNumber num\U{00E9}rico")
    else Valid
  }

  /** For an array file, what validation lets through is either kept as it
      is by the coercion or is the empty object that becomes []. */
  lemma ValidArrayFileCoercion(filename: string, data: Json)
    requires IsArrayFile(filename) && ValidateData(filename, data).Valid?
    ensures Coerce(filename, data) == data || (IsEmptyObject(data) && Coerce(filename, data) == Arr([]))
  {
  }

  /** What getData returns for the table `rows`: null when there is no row,
      otherwise the coerced document. */
  function Read(rows: map<string, Json>, filename: string): Json {
    if filename in rows then Coerce(filename, rows[filename]) else Null
  }

  /** The document an upsert stores for `data` (JSONB keeps JSON, so
      undefined members disappear). */
  function Stored(filename: string, data: Json): Json {
    Revive(Coerce(filename, data))
  }

  /** setData succeeds when the value is storable: JSONB NOT NULL refuses the
      SQL NULL that null and undefined become. */
  predicate Storable(filename: string, data: Json) {
    Coerce(filename, data) != Null && Coerce(filename, data) != Undefined
  }

  /** Last write wins: after a successful write the file reads back as the
      coerced value, for every value JSON represents exactly. */
  lemma WriteThenRead(rows: map<string, Json>, filename: string, data: Json)
    requires Representable(data)
    ensures Read(rows[filename := Stored(filename, data)], filename) == Coerce(filename, data)
  {
    var c := Coerce(filename, data);
    if c == Arr([]) {
      assert Representable(c);
    }
    ReviveRepresentable(c);
  }

  /** An array file always reads as an array (when it exists). */
  lemma ArrayFileReadsArray(rows: map<string, Json>, filename: string)
    requires IsArrayFile(filename) && filename in rows
    ensures Read(rows, filename).Arr?
  {
  }

  /** A write touches only its own file. */
  lemma WriteKeepsOthers(rows: map<string, Json>, filename: string, data: Json, other: string)
    requires other != filename
    ensures Read(rows[filename := Stored(filename, data)], other) == Read(rows, other)
  {
  }

  /** A person slot of the default profiles (gerencia, each subgerente). */
  function EmptyPerson(): Json {
    Obj([Member("name", Str("")), Member("pin", Str("")), Member("photo", Null), Member("createdAt", Null)])
  }

  function DefaultLocale(id: string, nombre: string, ubicacion: string): Json {
    Obj([Member("id", Str(id)), Member("nombre", Str(nombre)), Member("ubicacion", Str(ubicacion)),
         Member("subgerente", EmptyPerson()),
         Member("perfiles", Obj([Member("cajero", Arr([])), Member("administrativo", Arr([]))]))])
  }

  /** profiles.json: the two stores and an empty gerencia profile. */
  function DefaultProfiles(): Json {
    Obj([
      Member("locales", Arr([
        DefaultLocale("boulevard-maritimo", "Boulevard Mar\U{00ED}timo", "Av. Costanera 123"),
        DefaultLocale("photostation", "PhotoStation", "Calle Imagen 456")])),
      Member("gerencia", EmptyPerson())])
  }

  /** config.json, created at `createdAt` (an ISO time string). */
  function DefaultConfig(createdAt: string): Json {
    Obj([
      Member("storeName", Str("Mi Negocio")), Member("currency", Str("ARS")), Member("taxRate", Num(0)),
      Member("serverURL", Str("https://caja-production-5ef5.up.railway.app")),
      Member("createdAt", Str(createdAt)), Member("lastOrderNumber", Num(0))])
  }

  /** The documents that /api/init-db inserts, in insertion order. */
  function DefaultData(createdAt: string): (r: seq<(string, Json)>)
    ensures forall i, j :: 0 <= i < j < |r| ==> r[i].0 != r[j].0
    ensures forall i :: 0 <= i < |r| && IsArrayFile(r[i].0) ==> r[i].1 == Arr([])
    ensures forall f :: f in ArrayFiles ==> exists i :: 0 <= i < |r| && r[i].0 == f
  {
    var r := [
      (ProfilesFile, DefaultProfiles()),
      ("products.json", Arr([])),
      ("orders.json", Arr([])),
      ("categories.json", Arr([])),
      (ConfigFile, DefaultConfig(createdAt)),
      ("cash_register.json", Obj([Member("sessions", Arr([]))])),
      ("active_sessions.json", Obj([])),
      ("authorizations.json", Arr([])),
      ("change_history.json", Arr([]))
    ];
    assert forall k :: 0 <= k < |ArrayFiles| ==> ArrayFiles[k] == r[[1, 2, 3, 7, 8][k]].0;
    r
  }

  /** Looking a key up past a member with another key. */
  lemma LookupSkip(ms: seq<Member>, key: string)
    requires |ms| > 0 && ms[0].key != key
    ensures LookupMember(ms, key) == LookupMember(ms[1..], key)
  {
  }

  lemma DefaultConfigValid(createdAt: string)
    ensures Property(DefaultConfig(createdAt), "lastOrderNumber") == Num(0)
  {
    var ms := DefaultConfig(createdAt).members;
    var key := "lastOrderNumber";
    assert |key| == 15;
    LookupSkip(ms, key);
    LookupSkip(ms[1..], key);
    assert ms[1..][1..] == ms[2..];
    LookupSkip(ms[2..], key);
    assert ms[2..][1..] == ms[3..];
    LookupSkip(ms[3..], key);
    assert ms[3..][1..] == ms[4..];
    LookupSkip(ms[4..], key);
    assert ms[4..][1..] == ms[5..];
  }

  /** profiles.json and config.json are not among the array files. */
  lemma DocumentFilesAreNotArrays()
    ensures !IsArrayFile(ProfilesFile) && !IsArrayFile(ConfigFile)
  {
    assert ProfilesFile[3] == 'f' && ConfigFile[0] == 'c';
    forall f | f in ArrayFiles
      ensures f != ProfilesFile && f != ConfigFile
    {
      assert f[3] != 'f' || f[0] != 'p';
      assert f[0] != 'c' || f[1] != 'o' || f[2] != 'n';
    }
  }

  /** A config.json object with a numeric `lastOrderNumber` passes. */
  lemma ConfigValid(data: Json)
    requires data.Obj? && Property(data, "lastOrderNumber").Num?
    ensures ValidateData(ConfigFile, data).Valid?
  {
    DocumentFilesAreNotArrays();
    assert ConfigFile[0] != ProfilesFile[0];
  }

  /** A profiles.json object with a `locales` array passes. */
  lemma ProfilesValid(data: Json)
    requires data.Obj? && Property(data, "locales").Arr?
    ensures ValidateData(ProfilesFile, data).Valid?
  {
    DocumentFilesAreNotArrays();
    assert ProfilesFile[0] != ConfigFile[0];
  }

  lemma DefaultProfilesValid()
    ensures ValidateData(ProfilesFile, DefaultProfiles()).Valid?
  {
    var d := DefaultProfiles();
    assert d.members[0].key == "locales";
    assert Property(d, "locales") == d.members[0].value;
    ProfilesValid(d);
  }

  lemma DefaultArraysValid(createdAt: string, i: nat)
    requires i < |DefaultData(createdAt)| && i != 0 && i != 4
    ensures ValidateData(DefaultData(createdAt)[i].0, DefaultData(createdAt)[i].1).Valid?
  {
    var (f, d) := DefaultData(createdAt)[i];
    assert f != ProfilesFile && f != ConfigFile;
    assert d.Arr? || IsEmptyObject(d) || !IsArrayFile(f);
  }

  /** Every default document passes validateData. */
  lemma DefaultsAreValid(createdAt: string, i: nat)
    requires i < |DefaultData(createdAt)|
    ensures ValidateData(DefaultData(createdAt)[i].0, DefaultData(createdAt)[i].1).Valid?
  {
    var entry := DefaultData(createdAt)[i];
    if i == 0 {
      assert entry == (ProfilesFile, DefaultProfiles());
      DefaultProfilesValid();
    } else if i == 4 {
      assert entry == (ConfigFile, DefaultConfig(createdAt));
      DefaultConfigValid(createdAt);
      ConfigValid(DefaultConfig(createdAt));
    } else {
      DefaultArraysValid(createdAt, i);
    }
  }

  /** No entry before the `i`th inserts the same file. */
  predicate FirstWithName(entries: seq<(string, Json)>, i: nat)
    requires i < |entries|
  {
    forall k :: 0 <= k < i ==> entries[k].0 != entries[i].0
  }

  /** What inserting `entries` with ON CONFLICT DO NOTHING into `rows` may
      leave: every existing file keeps its document, every default file
      exists, no other file appears, and a file that was missing holds the
      document of the first entry that names it. */
  predicate InsertedDefaults(rows: map<string, Json>, entries: seq<(string, Json)>, r: map<string, Json>) {
    && (forall f :: f in rows ==> f in r && r[f] == rows[f])
    && (forall i :: 0 <= i < |entries| ==> entries[i].0 in r)
    && (forall f :: f in r ==> f in rows || exists i :: 0 <= i < |entries| && entries[i].0 == f)
    && (forall i :: 0 <= i < |entries| && entries[i].0 !in rows && FirstWithName(entries, i) ==> r[entries[i].0] == entries[i].1)
  }

  /** One more insert keeps InsertedDefaults. */
  lemma InsertStep(rows: map<string, Json>, entries: seq<(string, Json)>, rest: map<string, Json>)
    requires |entries| > 0
    requires InsertedDefaults(rows, entries[..|entries| - 1], rest)
    ensures
      var (f, d) := entries[|entries| - 1];
      InsertedDefaults(rows, entries, if f in rest then rest else rest[f := d])
  {
    var n := |entries| - 1;
    var pre := entries[..n];
    var (f, d) := entries[n];
    var r := if f in rest then rest else rest[f := d];
    forall i | 0 <= i < |entries|
      ensures entries[i].0 in r
    {
      if i < n {
        assert pre[i] == entries[i];
      }
    }
    forall g | g in r
      ensures g in rows || exists i :: 0 <= i < |entries| && entries[i].0 == g
    {
      if g != f && g !in rows {
        var i :| 0 <= i < |pre| && pre[i].0 == g;
        assert entries[i].0 == g;
      }
    }
    forall i | 0 <= i < |entries| && entries[i].0 !in rows && FirstWithName(entries, i)
      ensures r[entries[i].0] == entries[i].1
    {
      if i < n {
        assert pre[i] == entries[i];
        assert FirstWithName(pre, i) by {
          forall k | 0 <= k < i ensures pre[k].0 != pre[i].0 {
            assert pre[k] == entries[k];
          }
        }
        assert entries[i].0 in rest;
      }
    }
  }

  /** The table after inserting `entries` with ON CONFLICT DO NOTHING:
      a file already there keeps its document. */
  function WithDefaults(rows: map<string, Json>, entries: seq<(string, Json)>): (r: map<string, Json>)
    ensures forall f :: f in rows ==> f in r && r[f] == rows[f]
  {
    if |entries| == 0 then rows
    else
      var rest := WithDefaults(rows, entries[..|entries| - 1]);
      var (f, d) := entries[|entries| - 1];
      if f in rest then rest else rest[f := d]
  }

  /** Insert-if-absent, in full: every default file exists afterwards, no
      other file appears, and a missing file gets the document of the first
      entry that names it. */
  lemma {:induction false} WithDefaultsInserted(rows: map<string, Json>, entries: seq<(string, Json)>)
    ensures InsertedDefaults(rows, entries, WithDefaults(rows, entries))
  {
    if |entries| > 0 {
      WithDefaultsInserted(rows, entries[..|entries| - 1]);
      InsertStep(rows, entries, WithDefaults(rows, entries[..|entries| - 1]));
    }
  }

  /** Inserting one more entry after the first `i`. */
  lemma InsertNext(rows: map<string, Json>, entries: seq<(string, Json)>, i: nat)
    requires i < |entries|
    ensures
      var before := WithDefaults(rows, entries[..i]);
      var (f, d) := entries[i];
      WithDefaults(rows, entries[..i + 1]) == if f in before then before else before[f := d]
  {
    assert entries[..i + 1][..i] == entries[..i];
  }

  /** Initialising twice is initialising once. */
  lemma {:induction false} WithDefaultsIdempotent(rows: map<string, Json>, entries: seq<(string, Json)>)
    ensures WithDefaults(WithDefaults(rows, entries), entries) == WithDefaults(rows, entries)
  {
    var once := WithDefaults(rows, entries);
    WithDefaultsInserted(rows, entries);
    WithDefaultsKeeps(once, entries);
  }

  /** Inserting defaults into a table that already has every default file
      changes nothing. */
  lemma {:induction false} WithDefaultsKeeps(rows: map<string, Json>, entries: seq<(string, Json)>)
    requires forall i :: 0 <= i < |entries| ==> entries[i].0 in rows
    ensures WithDefaults(rows, entries) == rows
  {
    if |entries| > 0 {
      WithDefaultsKeeps(rows, entries[..|entries| - 1]);
    }
  }

  /** Inserting a longer run of the same defaults over a table that already
      went through a shorter one gives the table the longer run alone gives. */
  lemma {:induction false} WithDefaultsExtends(rows: map<string, Json>, entries: seq<(string, Json)>, k: nat, j: nat)
    requires k <= j <= |entries|
    ensures WithDefaults(WithDefaults(rows, entries[..k]), entries[..j]) == WithDefaults(rows, entries[..j])
    decreases j
  {
    var partial := WithDefaults(rows, entries[..k]);
    if j == k {
      WithDefaultsIdempotent(rows, entries[..k]);
    } else {
      WithDefaultsExtends(rows, entries, k, j - 1);
      assert entries[..j][..j - 1] == entries[..j - 1];
    }
  }

  /** An initialisation stopped by a failing insert leaves a table that a
      later complete initialisation brings to the same state as one that
      never failed. */
  lemma InitRetryCompletes(rows: map<string, Json>, entries: seq<(string, Json)>, k: nat)
    requires k <= |entries|
    ensures WithDefaults(WithDefaults(rows, entries[..k]), entries) == WithDefaults(rows, entries)
  {
    WithDefaultsExtends(rows, entries, k, |entries|);
    assert entries[..|entries|] == entries;
  }

  /** Every default file missing from the table gets its default document,
      since the defaults name each file once. */
  lemma InitInsertsDefaults(rows: map<string, Json>, createdAt: string)
    ensures var d := DefaultData(createdAt);
      forall i :: 0 <= i < |d| && d[i].0 !in rows ==>
        d[i].0 in WithDefaults(rows, d) && WithDefaults(rows, d)[d[i].0] == d[i].1
  {
    var d := DefaultData(createdAt);
    WithDefaultsInserted(rows, d);
    forall i | 0 <= i < |d| && d[i].0 !in rows
      ensures d[i].0 in WithDefaults(rows, d) && WithDefaults(rows, d)[d[i].0] == d[i].1
    {
      assert FirstWithName(d, i);
    }
  }

  class AppDataTable {
    /** The `app_data` table: file name to JSONB document. */
    var rows: map<string, Json>

    constructor (rows0: map<string, Json>)
      ensures rows == rows0
    {
      rows := rows0;
    }

    /** `getData(filename)`; `queryFails` says whether the SELECT threw, in
        which case the catch returns null. */
    method GetData(filename: string, queryFails: bool) returns (r: Json)
      ensures r == if queryFails then Null else Read(rows, filename)
      ensures filename !in rows ==> r == Null
      ensures !queryFails && IsArrayFile(filename) && filename in rows ==> r.Arr?
    {
      if queryFails || filename !in rows {
        return Null;
      }
      var data := rows[filename];
      r := Coerce(filename, data);
    }

    /** `setData(filename, data)`; `dbAccepts` says whether the database
        accepted the query. */
    method SetData(filename: string, data: Json, dbAccepts: bool) returns (ok: bool)
      modifies this
      ensures ok == (Storable(filename, data) && dbAccepts)
      ensures rows == if ok then old(rows)[filename := Stored(filename, data)] else old(rows)
    {
      var normalizedData := Coerce(filename, data);
      if normalizedData == Null || normalizedData == Undefined || !dbAccepts {
        return false;
      }
      rows := rows[filename := Revive(normalizedData)];
      ok := true;
    }

    /** /api/init-db: the insert loop over the default documents. `failsAt`
        is the index of the first insert that throws, if any: the loop stops
        there, the inserts before it stay, and the route answers with an
        error (`ok` false). */
    method InitDb(createdAt: string, failsAt: Option<nat>) returns (ok: bool)
      modifies this
      ensures
        var n := |DefaultData(createdAt)|;
        var done := if failsAt.Some? && failsAt.value < n then failsAt.value else n;
        && (ok <==> done == n)
        && rows == WithDefaults(old(rows), DefaultData(createdAt)[..done])
    {
      ok := InsertIfAbsent(DefaultData(createdAt), failsAt);
    }

    /** `INSERT … ON CONFLICT (filename) DO NOTHING` for each entry in turn,
        until the insert at `failsAt` throws. */
    method InsertIfAbsent(entries: seq<(string, Json)>, failsAt: Option<nat>) returns (ok: bool)
      modifies this
      ensures
        var done := if failsAt.Some? && failsAt.value < |entries| then failsAt.value else |entries|;
        && (ok <==> done == |entries|)
        && rows == WithDefaults(old(rows), entries[..done])
    {
      ghost var start := rows;
      var i := 0;
      while i < |entries|
        invariant 0 <= i <= |entries|
        invariant failsAt.Some? ==> i <= failsAt.value
        invariant rows == WithDefaults(start, entries[..i])
      {
        if failsAt == Some(i) {
          return false;
        }
        var (filename, data) := entries[i];
        InsertNext(start, entries, i);
        if filename !in rows {
          rows := rows[filename := data];
        }
        i := i + 1;
      }
      assert entries[..i] == entries;
      return true;
    }
  }
}
