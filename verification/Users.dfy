/** Users as documents of a collection: creating, fetching and updating them by difference. */
module Users {
  import opened JsonValues

  /** A document of the collection; `oid` is the value of its `_id`. */
  datatype Doc = Doc(oid: string, fields: Fields)

  /** The value of a `User` object. */
  datatype Profile = Profile(oid: string, id: string, email: string, username: string,
                             password: string, admin: bool, gravatar: string)

  /** A default-constructed user: a random id, everything else empty. */
  function Fresh(id: string): Profile {
    Profile("", id, "", "", "", false, "")
  }

  const ID := "id"
  const EMAIL := "email-address"
  const USERNAME := "username"
  const PASSWORD := "password"
  const ADMIN := "admin"
  const GRAVATAR := "gravatar-email-address"

  /** A field that is missing or of another type keeps the value the user had. */
  function StringAt(fields: Fields, key: string, kept: string): string {
    if key in fields && fields[key].JString? then fields[key].text else kept
  }

  function BoolAt(fields: Fields, key: string, kept: bool): bool {
    if key in fields && fields[key].JBool? then fields[key].flag else kept
  }

  /** The user after reading a document. */
  function Loaded(d: Doc, u: Profile): Profile {
    Profile(d.oid, StringAt(d.fields, ID, u.id), StringAt(d.fields, EMAIL, u.email),
            StringAt(d.fields, USERNAME, u.username), StringAt(d.fields, PASSWORD, u.password),
            BoolAt(d.fields, ADMIN, u.admin), StringAt(d.fields, GRAVATAR, u.gravatar))
  }

  predicate HasName(d: Doc, username: string) {
    USERNAME in d.fields && d.fields[USERNAME] == JString(username)
  }

  predicate Found(docs: seq<Doc>, username: string) {
    username != "" && exists d :: d in docs && HasName(d, username)
  }

  /** The user after reading every document of that name in order. */
  function Fetched(docs: seq<Doc>, username: string, u: Profile): Profile {
    if docs == [] || username == "" then u
    else
      var before := Fetched(docs[..|docs|-1], username, u);
      if HasName(docs[|docs|-1], username) then Loaded(docs[|docs|-1], before) else before
  }

  /** The JSON form of a user: all six fields. */
  function Written(u: Profile): Fields {
    map[ID := JString(u.id), EMAIL := JString(u.email), USERNAME := JString(u.username),
        PASSWORD := JString(u.password), ADMIN := JBool(u.admin), GRAVATAR := JString(u.gravatar)]
  }

  /** The document of a new user has no Gravatar field when there is no Gravatar address. */
  function Document(u: Profile): Fields {
    if u.gravatar != "" then Written(u) else Written(u) - {GRAVATAR}
  }

  function Diff(older: Fields, newer: Fields): Fields {
    map k | k in newer && (k !in older || older[k] != newer[k]) :: newer[k]
  }

  /** `update_one` with `$set`: the first document with that oid. */
  function UpdateOne(docs: seq<Doc>, oid: string, patch: Fields): seq<Doc> {
    if docs == [] then []
    else if docs[0].oid == oid then [Doc(oid, docs[0].fields + patch)] + docs[1..]
    else [docs[0]] + UpdateOne(docs[1..], oid, patch)
  }

  /** What `UpdateUser` sends: the fields in which the modified user differs from the stored one. */
  function Patch(docs: seq<Doc>, modified: Profile, freshId: string): Fields {
    if Found(docs, modified.username) then
      Diff(Written(Fetched(docs, modified.username, Fresh(freshId))), Written(modified))
    else map[]
  }

  function Updated(docs: seq<Doc>, modified: Profile, freshId: string): seq<Doc> {
    var patch := Patch(docs, modified, freshId);
    if patch == map[] then docs else UpdateOne(docs, modified.oid, patch)
  }

  ghost predicate Unique(docs: seq<Doc>) {
    && (forall i, j :: 0 <= i < j < |docs| ==> docs[i].oid != docs[j].oid)
    && (forall i, j, name :: 0 <= i < j < |docs| && HasName(docs[i], name) ==> !HasName(docs[j], name))
  }

  // ---------------------------------------------------------------- operations

  class User {
    var oid: string
    var id: string
    var email: string
    var username: string
    var password: string
    var admin: bool
    var gravatar: string

    ghost function Value(): Profile
      reads this
    {
      Profile(oid, id, email, username, password, admin, gravatar)
    }

    constructor (randomId: string)
      ensures Value() == Fresh(randomId)
    {
      oid, id, email, username, password, admin, gravatar := "", randomId, "", "", "", false, "";
    }

    /** Each field is read on its own; a field that cannot be read is left alone. */
    method Read(fields: Fields)
      modifies this
      ensures Value() == Loaded(Doc(old(oid), fields), old(Value()))
    {
      id := StringAt(fields, ID, id);
      email := StringAt(fields, EMAIL, email);
      username := StringAt(fields, USERNAME, username);
      password := StringAt(fields, PASSWORD, password);
      admin := BoolAt(fields, ADMIN, admin);
      gravatar := StringAt(fields, GRAVATAR, gravatar);
    }

    method Write() returns (fields: Fields)
      ensures fields == Written(Value())
    {
      fields := map[ID := JString(id), EMAIL := JString(email), USERNAME := JString(username),
                    PASSWORD := JString(password), ADMIN := JBool(admin), GRAVATAR := JString(gravatar)];
    }

    method WriteDocument() returns (fields: Fields)
      ensures fields == Document(Value())
    {
      fields := map[ID := JString(id), EMAIL := JString(email), USERNAME := JString(username),
                    PASSWORD := JString(password), ADMIN := JBool(admin)];
      if gravatar != "" {
        fields := fields[GRAVATAR := JString(gravatar)];
      }
    }
  }

  method DiffJson(older: Fields, newer: Fields) returns (result: Fields)
    ensures result == Diff(older, newer)
  {
    result := map[];
    var keys := newer.Keys;
    while keys != {}
      invariant keys <= newer.Keys
      invariant result == Diff(older, map k | k in newer && k !in keys :: newer[k])
    {
      var key :| key in keys;
      if key in older {
        if older[key] != newer[key] {
          result := result[key := newer[key]];
        }
      } else {
        result := result[key := newer[key]];
      }
      keys := keys - {key};
    }
    assert newer == map k | k in newer && k !in keys :: newer[k];
  }

  class Mongo {
    var docs: seq<Doc>

    method CreateUser(user: User, oid: string)
      modifies this
      ensures docs == old(docs) + [Doc(oid, Document(user.Value()))]
    {
      var fields := user.WriteDocument();
      docs := docs + [Doc(oid, fields)];
    }

    method FetchUser(username: string, user: User) returns (anyResults: bool)
      modifies user
      ensures anyResults == Found(docs, username)
      ensures user.Value() == Fetched(docs, username, old(user.Value()))
    {
      if username == "" {
        return false;
      }
      anyResults := false;
      for i := 0 to |docs|
        invariant anyResults == Found(docs[..i], username)
        invariant user.Value() == Fetched(docs[..i], username, old(user.Value()))
      {
        ghost var seen := docs[..i + 1];
        assert seen[..i] == docs[..i] && seen == docs[..i] + [docs[i]];
        if HasName(docs[i], username) {
          assert docs[i] in seen;
          user.Read(docs[i].fields);
          user.oid := docs[i].oid;
          anyResults := true;
        }
      }
      assert docs[..|docs|] == docs;
    }

    /** `randomId` is the id of the default-constructed user that is fetched into. */
    method UpdateUser(modified: User, randomId: string, acknowledged: bool) returns (ok: bool)
      modifies this
      ensures docs == Updated(old(docs), modified.Value(), randomId)
      ensures ok == (acknowledged && Patch(old(docs), modified.Value(), randomId) != map[])
    {
      var original := new User(randomId);
      var found := FetchUser(modified.username, original);
      if found {
        var older := original.Write();
        var newer := modified.Write();
        var patch := DiffJson(older, newer);
        if patch != map[] {
          docs := UpdateOne(docs, modified.oid, patch);
          return acknowledged;
        }
      }
      ok := false;
    }
  }

  // ---------------------------------------------------------------- the difference as a patch

  /** The difference brings the old object up to date, and no patch that does so has fewer keys. */
  lemma DiffIsLeastPatch(older: Fields, newer: Fields, patch: Fields)
    ensures older + Diff(older, newer) == older + newer
    ensures older + patch == older + newer ==> Diff(older, newer).Keys <= patch.Keys
  {
    if older + patch == older + newer {
      forall k | k in Diff(older, newer) ensures k in patch {
        assert (older + newer)[k] == newer[k];
        assert k in older + patch;
      }
    }
  }

  /** A patch that carries a field exactly when it differs, with its new value. */
  ghost predicate Carries(patch: Fields, a: Profile, b: Profile) {
    && CarriesString(patch, ID, a.id, b.id)
    && CarriesString(patch, EMAIL, a.email, b.email)
    && CarriesString(patch, USERNAME, a.username, b.username)
    && CarriesString(patch, PASSWORD, a.password, b.password)
    && CarriesString(patch, GRAVATAR, a.gravatar, b.gravatar)
    && (if ADMIN in patch then a.admin != b.admin && patch[ADMIN] == JBool(b.admin) else a.admin == b.admin)
  }

  ghost predicate CarriesString(patch: Fields, key: string, older: string, newer: string) {
    if key in patch then older != newer && patch[key] == JString(newer) else older == newer
  }

  ghost predicate IsWritten(fields: Fields, u: Profile) {
    && fields.Keys == {ID, EMAIL, USERNAME, PASSWORD, ADMIN, GRAVATAR}
    && fields[ID] == JString(u.id) && fields[EMAIL] == JString(u.email) && fields[USERNAME] == JString(u.username)
    && fields[PASSWORD] == JString(u.password) && fields[ADMIN] == JBool(u.admin)
    && fields[GRAVATAR] == JString(u.gravatar)
  }

  lemma WrittenIsWritten(u: Profile)
    ensures IsWritten(Written(u), u)
  {
  }

  lemma DiffOfWritten(older: Fields, newer: Fields, a: Profile, b: Profile)
    requires IsWritten(older, a) && IsWritten(newer, b)
    ensures Carries(Diff(older, newer), a, b)
    ensures Diff(older, newer).Keys <= {ID, EMAIL, USERNAME, PASSWORD, ADMIN, GRAVATAR}
  {
  }

  lemma CarriesNothing(patch: Fields, a: Profile, b: Profile)
    requires Carries(patch, a, b)
    requires patch.Keys <= {ID, EMAIL, USERNAME, PASSWORD, ADMIN, GRAVATAR}
    ensures patch == map[] <==> a.(oid := b.oid) == b
  {
    if a.(oid := b.oid) == b {
      assert patch.Keys == {};
    }
  }

  /** A key is sent exactly when its field differs, so nothing is sent exactly when no field does. */
  lemma DiffOfUsers(a: Profile, b: Profile)
    ensures Carries(Diff(Written(a), Written(b)), a, b)
    ensures Diff(Written(a), Written(b)) == map[] <==> a.(oid := b.oid) == b
  {
    WrittenIsWritten(a);
    WrittenIsWritten(b);
    DiffOfWritten(Written(a), Written(b), a, b);
    CarriesNothing(Diff(Written(a), Written(b)), a, b);
  }

  // ---------------------------------------------------------------- one stored user

  lemma {:induction false} FetchedIsNamed(docs: seq<Doc>, username: string, u: Profile)
    requires Found(docs, username)
    ensures Fetched(docs, username, u).username == username
  {
    var rest, last := docs[..|docs|-1], docs[|docs|-1];
    if !HasName(last, username) {
      var d :| d in docs && HasName(d, username);
      assert docs == rest + [last] && d in rest;
      FetchedIsNamed(rest, username, u);
    }
  }

  /** Reading the only document of a name. */
  lemma {:induction false} FetchedOnly(docs: seq<Doc>, i: nat, username: string, u: Profile)
    requires i < |docs| && username != ""
    requires forall j :: 0 <= j < |docs| ==> (HasName(docs[j], username) <==> j == i)
    ensures Found(docs, username) && Fetched(docs, username, u) == Loaded(docs[i], u)
  {
    assert docs[i] in docs;
    if i < |docs| - 1 {
      FetchedOnly(docs[..|docs|-1], i, username, u);
    } else {
      FetchedNone(docs[..i], username, u);
    }
  }

  lemma {:induction false} FetchedNone(docs: seq<Doc>, username: string, u: Profile)
    requires !Found(docs, username)
    ensures Fetched(docs, username, u) == u
  {
    if docs != [] && username != "" {
      var rest, last := docs[..|docs|-1], docs[|docs|-1];
      assert last in docs;
      assert forall d :: d in rest ==> d in docs;
      FetchedNone(rest, username, u);
    }
  }

  /** From a document with some of the fields of a user exactly these are read. */
  lemma ReadsWhatIsThere(oid: string, v: Profile, keys: set<string>, u: Profile)
    ensures Loaded(Doc(oid, map k | k in Written(v) && k in keys :: Written(v)[k]), u) == Profile(oid,
      if "id" in keys then v.id else u.id,
      if "email-address" in keys then v.email else u.email,
      if "username" in keys then v.username else u.username,
      if "password" in keys then v.password else u.password,
      if "admin" in keys then v.admin else u.admin,
      if "gravatar-email-address" in keys then v.gravatar else u.gravatar)
  {
    WrittenIsWritten(v);
  }

  /** Of several documents of a name the last one decides every field that it has. */
  lemma {:induction false} LastDocumentDecides(docs: seq<Doc>, i: nat, username: string, u: Profile)
    requires i < |docs| && username != "" && HasName(docs[i], username)
    requires forall j :: i < j < |docs| ==> !HasName(docs[j], username)
    ensures Fetched(docs, username, u) == Loaded(docs[i], Fetched(docs[..i], username, u))
  {
    if i < |docs| - 1 {
      LastDocumentDecides(docs[..|docs|-1], i, username, u);
      assert docs[..|docs|-1][..i] == docs[..i];
    }
  }

  /** The fields of a new user's document. */
  lemma DocumentHasFields(u: Profile)
    ensures var d := Document(u);
      && "id" in d && d["id"] == JString(u.id)
      && "email-address" in d && d["email-address"] == JString(u.email)
      && "username" in d && d["username"] == JString(u.username)
      && "password" in d && d["password"] == JString(u.password)
      && "admin" in d && d["admin"] == JBool(u.admin)
      && ("gravatar-email-address" in d <==> u.gravatar != "")
      && (u.gravatar != "" ==> d["gravatar-email-address"] == JString(u.gravatar))
      && |d| == if u.gravatar != "" then 6 else 5
  {
    WrittenIsWritten(u);
    assert Written(u).Keys == {ID, EMAIL, USERNAME, PASSWORD, ADMIN, GRAVATAR};
    assert |Written(u).Keys| == 6;
    assert Document(u).Keys == if u.gravatar != "" then Written(u).Keys else Written(u).Keys - {GRAVATAR};
  }

  /** A created user reads back unless the user read into had a Gravatar address and the created one has none. */
  lemma CreateThenFetch(docs: seq<Doc>, oid: string, created: Profile, u: Profile)
    requires created.username != "" && !Found(docs, created.username)
    ensures
      var after := docs + [Doc(oid, Document(created))];
      && Found(after, created.username)
      && (Fetched(after, created.username, u) == created.(oid := oid)
          <==> created.gravatar != "" || u.gravatar == "")
  {
    var after := docs + [Doc(oid, Document(created))];
    forall j | 0 <= j < |after| ensures HasName(after[j], created.username) <==> j == |docs| {
      assert j < |docs| ==> docs[j] in docs;
    }
    FetchedOnly(after, |docs|, created.username, u);
  }

  lemma {:induction false} UpdateOneAt(docs: seq<Doc>, oid: string, patch: Fields)
    ensures var after := UpdateOne(docs, oid, patch);
      && |after| == |docs|
      && forall i :: 0 <= i < |docs| ==>
           && after[i].oid == docs[i].oid
           && (after[i] == docs[i] || (docs[i].oid == oid && after[i].fields == docs[i].fields + patch))
           && (docs[i].oid == oid && (forall j :: 0 <= j < i ==> docs[j].oid != oid) ==>
                 after[i].fields == docs[i].fields + patch)
           && ((exists j :: 0 <= j < i && docs[j].oid == oid) ==> after[i] == docs[i])
  {
    if docs != [] && docs[0].oid != oid {
      UpdateOneAt(docs[1..], oid, patch);
    }
  }

  lemma PatchSparesUsername(docs: seq<Doc>, modified: Profile, freshId: string)
    ensures USERNAME !in Patch(docs, modified, freshId)
  {
    if Found(docs, modified.username) {
      FetchedIsNamed(docs, modified.username, Fresh(freshId));
    }
  }

  /**
    No update whatsoever changes the name or the oid of any document; every document that is
    not the updated one stays as it is, and in that one every field outside the patch does.
   */
  lemma UpdateSpares(docs: seq<Doc>, modified: Profile, freshId: string)
    ensures var after := Updated(docs, modified, freshId);
      && |after| == |docs|
      && (forall i, name :: 0 <= i < |docs| ==> (HasName(after[i], name) <==> HasName(docs[i], name)))
      && (forall i :: 0 <= i < |docs| ==> after[i].oid == docs[i].oid)
      && (forall i :: 0 <= i < |docs| && docs[i].oid != modified.oid ==> after[i] == docs[i])
      && (forall i, k :: 0 <= i < |docs| && k !in Patch(docs, modified, freshId) ==>
            (k in after[i].fields <==> k in docs[i].fields)
            && (k in docs[i].fields ==> after[i].fields[k] == docs[i].fields[k]))
  {
    PatchSparesUsername(docs, modified, freshId);
    UpdateOneAt(docs, modified.oid, Patch(docs, modified, freshId));
  }

  lemma UpdateKeepsUnique(docs: seq<Doc>, modified: Profile, freshId: string)
    requires Unique(docs)
    ensures Unique(Updated(docs, modified, freshId))
  {
    UpdateSpares(docs, modified, freshId);
  }

  lemma FoundAfter(docs: seq<Doc>, after: seq<Doc>, username: string)
    requires |docs| == |after|
    requires forall i, name :: 0 <= i < |docs| ==> (HasName(after[i], name) <==> HasName(docs[i], name))
    ensures Found(after, username) <==> Found(docs, username)
  {
    if d :| d in docs && HasName(d, username) {
      var i :| 0 <= i < |docs| && docs[i] == d;
      assert after[i] in after && HasName(docs[i], username);
    }
    if d :| d in after && HasName(d, username) {
      var i :| 0 <= i < |after| && after[i] == d;
      assert docs[i] in docs && HasName(after[i], username);
    }
  }

  /** A patched string field reads as the new value if it was sent, or if it read as that value before. */
  lemma StringPatched(fields: Fields, patch: Fields, key: string, older: string, newer: string, kept: string)
    requires CarriesString(patch, key, older, newer)
    requires older == StringAt(fields, key, older)
    ensures StringAt(fields + patch, key, kept) == newer
      <==> older != newer || kept == newer || (key in fields && fields[key].JString?)
  {
  }

  /** Reading a patched document gives the modified user, but for an id that was never stored. */
  lemma LoadedPatched(d: Doc, patch: Fields, older: Profile, modified: Profile, freshId: string, laterId: string)
    requires older == Loaded(d, Fresh(freshId)) && Carries(patch, older, modified) && modified.oid == d.oid
    ensures Loaded(Doc(d.oid, d.fields + patch), Fresh(laterId)) == modified
      <==> StoredId(d) || freshId != modified.id || laterId == modified.id
  {
    StringPatched(d.fields, patch, ID, older.id, modified.id, laterId);
    StringPatched(d.fields, patch, EMAIL, older.email, modified.email, "");
    StringPatched(d.fields, patch, USERNAME, older.username, modified.username, "");
    StringPatched(d.fields, patch, PASSWORD, older.password, modified.password, "");
    StringPatched(d.fields, patch, GRAVATAR, older.gravatar, modified.gravatar, "");
  }

  predicate StoredId(d: Doc) {
    ID in d.fields && d.fields[ID].JString?
  }

  /** The document a user is stored in: its oid and its name. */
  ghost predicate StoredAs(docs: seq<Doc>, i: nat, u: Profile) {
    i < |docs| && u.username != "" && docs[i].oid == u.oid && HasName(docs[i], u.username)
  }

  /** The update of the document at `i`, which bears the name of the modified user. */
  lemma UpdateThenFetchAt(docs: seq<Doc>, i: nat, modified: Profile, freshId: string, laterId: string)
    requires Unique(docs) && i < |docs| && modified.username != "" && HasName(docs[i], modified.username)
    ensures Patch(docs, modified, freshId) == Diff(Written(Loaded(docs[i], Fresh(freshId))), Written(modified))
    ensures
      var after := Updated(docs, modified, freshId);
      && Found(after, modified.username)
      && (Fetched(after, modified.username, Fresh(laterId)) == modified
          <==> docs[i].oid == modified.oid && (StoredId(docs[i]) || freshId != modified.id || laterId == modified.id))
  {
    var name, after := modified.username, Updated(docs, modified, freshId);
    var older, patch := Loaded(docs[i], Fresh(freshId)), Patch(docs, modified, freshId);
    UpdateSpares(docs, modified, freshId);
    FetchedOnly(docs, i, name, Fresh(freshId));
    FetchedOnly(after, i, name, Fresh(laterId));
    DiffOfUsers(older, modified);
    if docs[i].oid == modified.oid {
      UpdateOneAt(docs, modified.oid, patch);
      assert after[i] == Doc(docs[i].oid, docs[i].fields + patch);
      LoadedPatched(docs[i], patch, older, modified, freshId, laterId);
    }
  }

  lemma Holder(docs: seq<Doc>, name: string) returns (i: nat)
    requires Found(docs, name)
    ensures i < |docs| && HasName(docs[i], name)
  {
    var d :| d in docs && HasName(d, name);
    i :| i < |docs| && docs[i] == d;
  }

  lemma StoredOnlyAt(docs: seq<Doc>, i: nat, u: Profile)
    requires Unique(docs) && i < |docs| && u.username != "" && HasName(docs[i], u.username)
    ensures forall j: nat :: StoredAs(docs, j, u) <==> j == i && docs[i].oid == u.oid
  {
  }

  lemma NotStored(docs: seq<Doc>, u: Profile)
    requires !Found(docs, u.username)
    ensures forall j: nat :: !StoredAs(docs, j, u)
  {
    assert forall j: nat :: j < |docs| ==> docs[j] in docs;
  }

  /**
    `UpdateUser` and then `FetchUser` into a fresh user gives back exactly the modified user
    if and only if the user has kept the name it is stored under and either its document
    has an id or the random ids of the fresh users do not get in the way.
   */
  lemma UpdateThenFetch(docs: seq<Doc>, modified: Profile, freshId: string, laterId: string)
    requires Unique(docs)
    ensures
      var after := Updated(docs, modified, freshId);
      Found(after, modified.username) && Fetched(after, modified.username, Fresh(laterId)) == modified
      <==> exists i: nat :: StoredAs(docs, i, modified)
             && (StoredId(docs[i]) || freshId != modified.id || laterId == modified.id)
  {
    var after := Updated(docs, modified, freshId);
    assert Found(after, modified.username) <==> Found(docs, modified.username) by {
      UpdateSpares(docs, modified, freshId);
      FoundAfter(docs, after, modified.username);
    }
    if Found(docs, modified.username) {
      var i := Holder(docs, modified.username);
      UpdateThenFetchAt(docs, i, modified, freshId, laterId);
      StoredOnlyAt(docs, i, modified);
    } else {
      NotStored(docs, modified);
    }
  }

  /** The update of a stored user succeeds exactly when some field has changed and the write is acknowledged. */
  lemma UpdateSucceeds(docs: seq<Doc>, i: nat, modified: Profile, freshId: string)
    requires Unique(docs) && StoredAs(docs, i, modified)
    ensures Patch(docs, modified, freshId) == map[] <==> Loaded(docs[i], Fresh(freshId)) == modified
    ensures Carries(Patch(docs, modified, freshId), Loaded(docs[i], Fresh(freshId)), modified)
  {
    UpdateThenFetchAt(docs, i, modified, freshId, freshId);
    DiffOfUsers(Loaded(docs[i], Fresh(freshId)), modified);
  }

  /** A user cannot be renamed: to a free name nothing happens at all, and the old name always stays. */
  lemma RenamingFails(docs: seq<Doc>, i: nat, modified: Profile, freshId: string, name: string)
    requires i < |docs| && docs[i].oid == modified.oid && HasName(docs[i], name)
    ensures var after := Updated(docs, modified, freshId);
      i < |after| && after[i].oid == docs[i].oid && HasName(after[i], name)
    ensures !Found(docs, modified.username) ==>
      Patch(docs, modified, freshId) == map[] && Updated(docs, modified, freshId) == docs
  {
    UpdateSpares(docs, modified, freshId);
  }
}
