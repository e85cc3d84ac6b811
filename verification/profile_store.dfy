/** `saveProfile` and `getProfile` (Server/controllers/profileController.js)
    over the operator-profile collection, held as a map from the (normalised)
    email, which the schema declares unique, to the stored profile. What the
    database does beyond the upsert itself (a duplicate-key race, any other
    failure) is a parameter. */
module ProfileStore {
  import opened Js
  import opened Text
  import opened ProfileSchema

  /** The body fields `saveProfile` reads; a missing field is `None`. */
  datatype SaveRequest = SaveRequest(
    name: Option<string>, designation: Option<string>, email: Option<string>, organization: Option<string>)

  /** How the database's write ends when it is reached: it succeeds, it
      reports a duplicate key (code 11000), or it fails in another way. */
  datatype StoreFault = NoFault | DuplicateKey | OtherFault

  /** The JSON reply with its HTTP status; `profile` is the saved or fetched
      record, `None` where the reply has none (or the empty object `{}`). */
  datatype Reply = Reply(status: int, success: bool, message: string, profile: Option<OperatorProfile>)

  type Table = map<string, OperatorProfile>

  /** Every stored profile sits under its own email, and holds what the
      setters and update validators let through: non-empty trimmed name and
      designation, a trimmed organization, and a trimmed lower-case email. */
  ghost predicate Stored(key: string, p: OperatorProfile)
  {
    && p.email == key && IsLower(key) && Trimmed(key)
    && p.name != "" && Trimmed(p.name)
    && p.designation != "" && Trimmed(p.designation)
    && Trimmed(p.organization)
  }

  ghost predicate ValidTable(db: Table)
  {
    forall key :: key in db ==> Stored(key, db[key])
  }

  /** The controller's own guard: name, email and designation are truthy. */
  predicate HasRequiredFields(req: SaveRequest)
  {
    Truthy(req.name) && Truthy(req.email) && Truthy(req.designation)
  }

  /** The update validators that run on the written paths: `name` and
      `designation` must still be non-empty after trimming. */
  predicate PassesUpdateValidators(req: SaveRequest)
  {
    RequiredPresent(req.name) && RequiredPresent(req.designation)
  }

  /** The filter value after the email setters (lower-case, trim). */
  function Key(req: SaveRequest): string
    requires req.email.Some?
  {
    NormaliseEmail(req.email.value)
  }

  /** The record the upsert leaves under the key: the trimmed name and
      designation, the trimmed organization when one was sent (otherwise the
      stored one, or the default on insert), and `lastUpdated` = now. */
  function Upserted(db: Table, req: SaveRequest, now: int): (p: OperatorProfile)
    requires HasRequiredFields(req)
    ensures p.email == Key(req) && p.lastUpdated == now
    ensures p.name == Trim(req.name.value) && p.designation == Trim(req.designation.value)
    ensures req.organization.Some? ==> p.organization == Trim(req.organization.value)
    ensures req.organization.None? && Key(req) in db ==> p.organization == db[Key(req)].organization
    ensures req.organization.None? && Key(req) !in db ==> p.organization == DefaultOrganization
  {
    var key := Key(req);
    var organization :=
      if req.organization.Some? then Trim(req.organization.value)
      else if key in db then db[key].organization
      else DefaultOrganization;
    OperatorProfile(Trim(req.name.value), key, Trim(req.designation.value), organization, now)
  }

  /** One `saveProfile` call as a function of the collection before it: the
      reply and the collection after it. */
  function Save(db: Table, req: SaveRequest, now: int, fault: StoreFault): (r: (Reply, Table))
    ensures r.0.success <==> r.0.status == 200
    ensures r.0.status != 200 ==> r.1 == db
    ensures HasRequiredFields(req) ==> forall key :: key in r.1 ==> key in db || key == Key(req)
    ensures HasRequiredFields(req) ==> forall key :: key in db && key != Key(req) ==> key in r.1 && r.1[key] == db[key]
  {
    if !HasRequiredFields(req) then
      (Reply(400, false, "Missing required profile fields.", None), db)
    else if !PassesUpdateValidators(req) then
      (Reply(500, false, "Server failed to save profile.", None), db)
    else if fault == DuplicateKey then
      (Reply(400, false, "Profile with this email already exists.", None), db)
    else if fault == OtherFault then
      (Reply(500, false, "Server failed to save profile.", None), db)
    else
      var p := Upserted(db, req, now);
      (Reply(200, true, "Profile successfully saved and alerts activated.", Some(p)), db[Key(req) := p])
  }

  /** The replies of `saveProfile`: 200 exactly when the fields are present,
      valid and the write went through; 400 for missing fields or a duplicate
      key; 500 otherwise. Only a 200 changes the collection. */
  lemma {:induction false} SaveReplies(db: Table, req: SaveRequest, now: int, fault: StoreFault)
    ensures var (reply, db') := Save(db, req, now, fault);
      && reply.status in {200, 400, 500}
      && (reply.success <==> reply.status == 200)
      && (reply.status == 200 <==> HasRequiredFields(req) && PassesUpdateValidators(req) && fault == NoFault)
      && (!HasRequiredFields(req) ==> reply.status == 400 && reply.message == "Missing required profile fields.")
      && (HasRequiredFields(req) && PassesUpdateValidators(req) && fault == DuplicateKey ==>
            reply.status == 400 && reply.message == "Profile with this email already exists.")
      && (HasRequiredFields(req) && (!PassesUpdateValidators(req) || fault == OtherFault) ==>
            reply.status == 500 && reply.message == "Server failed to save profile.")
      && (reply.status != 200 ==> db' == db && reply.profile.None?)
      && (reply.status == 200 ==> reply.profile == Some(db'[Key(req)]))
  {
  }

  /** The upsert: after a successful save the collection holds exactly the
      old keys plus the request's key, which now holds the given fields
      stamped with `now`; every other record is untouched. */
  lemma {:induction false} SaveIsUpsert(db: Table, req: SaveRequest, now: int, fault: StoreFault)
    requires Save(db, req, now, fault).0.status == 200
    ensures var db' := Save(db, req, now, fault).1;
      && HasRequiredFields(req)
      && db'.Keys == db.Keys + {Key(req)}
      && |db'| == (if Key(req) in db then |db| else |db| + 1)
      && (forall key :: key in db && key != Key(req) ==> db'[key] == db[key])
      && db'[Key(req)].name == Trim(req.name.value)
      && db'[Key(req)].designation == Trim(req.designation.value)
      && db'[Key(req)].lastUpdated == now
  {
    var key := Key(req);
    var p := Upserted(db, req, now);
    assert Save(db, req, now, fault).1 == db[key := p];
    UpdateSize(db, key, p);
  }

  /** Writing one key adds it to the keys, and grows the map only when the
      key is new. */
  lemma {:induction false} UpdateSize(db: Table, key: string, p: OperatorProfile)
    ensures db[key := p].Keys == db.Keys + {key}
    ensures |db[key := p]| == (if key in db then |db| else |db| + 1)
  {
    if key in db {
      assert db.Keys + {key} == db.Keys;
    } else {
      assert |db.Keys + {key}| == |db.Keys| + 1;
    }
  }

  /** The record an accepted save writes holds what `Stored` asks of it. */
  lemma {:induction false} UpsertedIsStored(db: Table, req: SaveRequest, now: int)
    requires ValidTable(db) && HasRequiredFields(req) && PassesUpdateValidators(req)
    ensures Stored(Key(req), Upserted(db, req, now))
  {
    NormalisedEmailIsLower(req.email.value);
    assert Trimmed(DefaultOrganization);
  }

  /** Saving keeps every record under its own normalised email. */
  lemma {:induction false} SavePreservesValid(db: Table, req: SaveRequest, now: int, fault: StoreFault)
    requires ValidTable(db)
    ensures ValidTable(Save(db, req, now, fault).1)
  {
    if HasRequiredFields(req) && PassesUpdateValidators(req) && fault == NoFault {
      var key := Key(req);
      var p := Upserted(db, req, now);
      UpsertedIsStored(db, req, now);
      var db' := db[key := p];
      assert Save(db, req, now, fault).1 == db';
      forall k | k in db'
        ensures Stored(k, db'[k])
      {
        if k != key {
          assert db'[k] == db[k];
        }
      }
    }
  }

  /** A saved record whose email the schema's validator accepts conforms to
      the whole schema; the upsert itself does not run that validator, since
      the email is part of the filter and not of the update. */
  lemma {:induction false} SavedConforms(db: Table, req: SaveRequest, now: int, fault: StoreFault)
    requires ValidTable(db)
    requires Save(db, req, now, fault).0.status == 200
    requires ValidEmail(Key(req))
    ensures Conforms(Save(db, req, now, fault).1[Key(req)])
  {
    var p := Upserted(db, req, now);
    UpsertedIsStored(db, req, now);
    assert Save(db, req, now, fault).1[Key(req)] == p;
  }

  /** Unique emails: two different keys of a valid collection hold records
      with different emails. */
  lemma {:induction false} EmailsUnique(db: Table, a: string, b: string)
    requires ValidTable(db) && a in db && b in db && a != b
    ensures db[a].email != db[b].email
  {
  }

  /** The collection, held as the controller's database handle. */
  class Store {
    var profiles: Table

    ghost predicate Valid()
      reads this
    {
      ValidTable(profiles)
    }

    constructor()
      ensures profiles == map[] && Valid()
    {
      profiles := map[];
    }

    /** `saveProfile`: validates the body, upserts the record keyed by the
        normalised email and stamps it with `now`. */
    method SaveProfile(req: SaveRequest, now: int, fault: StoreFault) returns (reply: Reply)
      requires Valid()
      modifies this
      ensures Valid()
      ensures (reply, profiles) == Save(old(profiles), req, now, fault)
    {
      SavePreservesValid(profiles, req, now, fault);
      if !(Truthy(req.name) && Truthy(req.email) && Truthy(req.designation)) {
        return Reply(400, false, "Missing required profile fields.", None);
      }
      if !(RequiredPresent(req.name) && RequiredPresent(req.designation)) {
        return Reply(500, false, "Server failed to save profile.", None);
      }
      match fault {
        case DuplicateKey =>
          return Reply(400, false, "Profile with this email already exists.", None);
        case OtherFault =>
          return Reply(500, false, "Server failed to save profile.", None);
        case NoFault =>
          var profile := Upserted(profiles, req, now);
          profiles := profiles[NormaliseEmail(req.email.value) := profile];
          return Reply(200, true, "Profile successfully saved and alerts activated.", Some(profile));
      }
    }

    /** `getProfile`: the record with the greatest `lastUpdated` (any of them
        on a tie), `{}` when the collection is empty, 500 when the query
        fails. */
    method GetProfile(fault: bool) returns (reply: Reply)
      ensures fault ==> reply == Reply(500, false, "Failed to fetch profile data.", None)
      ensures !fault ==> reply.status == 200 && reply.success
      ensures !fault ==> (reply.profile.None? <==> profiles == map[])
      ensures reply.profile.Some? ==>
        && (exists key :: key in profiles && profiles[key] == reply.profile.value)
        && (forall key :: key in profiles ==> profiles[key].lastUpdated <= reply.profile.value.lastUpdated)
    {
      if fault {
        return Reply(500, false, "Failed to fetch profile data.", None);
      }
      var latest: Option<OperatorProfile> := None;
      var unseen := profiles.Keys;
      while unseen != {}
        invariant unseen <= profiles.Keys
        invariant latest.None? <==> unseen == profiles.Keys
        invariant latest.Some? ==> exists key :: key in profiles && profiles[key] == latest.value
        invariant latest.Some? ==> forall key :: key in profiles && key !in unseen ==> profiles[key].lastUpdated <= latest.value.lastUpdated
        decreases |unseen|
      {
        var key :| key in unseen;
        if latest.None? || latest.value.lastUpdated < profiles[key].lastUpdated {
          latest := Some(profiles[key]);
        }
        unseen := unseen - {key};
      }
      return Reply(200, true, "", latest);
    }
  }
}
