/** The user endpoints: reading a profile, the field-selective profile
    update, connecting a wallet address to an e-mail address (an upsert),
    and the user search. The collection is a sequence kept newest first. */
module UserRoutes {
  import opened Common
  import opened Text
  import opened UserModel
  import opened Pagination

  /** `findById`: the position of the user with that id, if any. */
  function IndexOf(users: seq<User>, id: Id): (r: Option<nat>)
    ensures r.Some? ==> r.value < |users| && users[r.value].id == id
    ensures r.None? ==> forall k :: 0 <= k < |users| ==> users[k].id != id
  {
    FirstIndex(users, (u: User) => u.id == id)
  }

  /** `findOne({ email })`: the position of the user with that stored
      address, if any. */
  function IndexOfEmail(users: seq<User>, email: string): (r: Option<nat>)
    ensures r.Some? ==> r.value < |users| && users[r.value].email == email
    ensures r.None? ==> forall k :: 0 <= k < |users| ==> users[k].email != email
  {
    FirstIndex(users, (u: User) => u.email == email)
  }

  // ---------------------------------------------------------------------
  // Reading a profile

  /** `GET /users/profile/:id`: the user's public form, or 404. */
  function Profile(users: seq<User>, id: Id): (r: Reply<PublicUser>)
    ensures r.status == 404 <==> forall k :: 0 <= k < |users| ==> users[k].id != id
    ensures r.status == 404 ==> r == Reply(404, "User not found", None)
    ensures r.status != 404 ==> r.status == 200 && r.body.Some?
    ensures r.status == 200 ==>
      exists k :: 0 <= k < |users| && users[k].id == id && r.body == Some(ToJSON(users[k]))
  {
    match IndexOf(users, id)
    case None => Reply(404, "User not found", None)
    case Some(i) => Reply(200, "", Some(ToJSON(users[i])))
  }

  // ---------------------------------------------------------------------
  // Updating a profile

  /** The recognised fields of an update body; `None` is an absent key. */
  datatype ProfileBody = ProfileBody(
    name: Option<string>,
    bio: Option<string>,
    linkedinUrl: Option<string>,
    skills: Option<seq<string>>,
    walletAddress: Option<string>,
    location: Option<string>,
    experience: Option<string>)

  /** The update document; a `None` field is a key it lacks. */
  datatype Patch = Patch(
    name: Option<string>,
    bio: Option<string>,
    linkedinUrl: Option<string>,
    skills: Option<seq<string>>,
    walletAddress: Option<string>,
    location: Option<string>,
    experience: Option<string>)

  /** The update document the handler builds: `name` and `experience` only
      when truthy, `skills` whenever present (an array is truthy even when
      empty), the other four whenever not `undefined`, the empty string
      included. */
  function SelectFields(b: ProfileBody): Patch {
    Patch(
      if Given(b.name) then b.name else None,
      b.bio,
      b.linkedinUrl,
      b.skills,
      b.walletAddress,
      b.location,
      if Given(b.experience) then b.experience else None)
  }

  /** Builds the update document key by key, as the handler does. */
  method BuildUpdate(b: ProfileBody) returns (patch: Patch)
    ensures patch == SelectFields(b)
  {
    patch := Patch(None, None, None, None, None, None, None);
    if Given(b.name) {
      patch := patch.(name := b.name);
    }
    if b.bio.Some? {
      patch := patch.(bio := b.bio);
    }
    if b.linkedinUrl.Some? {
      patch := patch.(linkedinUrl := b.linkedinUrl);
    }
    if b.skills.Some? {
      patch := patch.(skills := b.skills);
    }
    if b.walletAddress.Some? {
      patch := patch.(walletAddress := b.walletAddress);
    }
    if b.location.Some? {
      patch := patch.(location := b.location);
    }
    if Given(b.experience) {
      patch := patch.(experience := b.experience);
    }
  }

  /** The validators the update runs on the keys it sets: `name` is still
      required after its `trim` setter, `bio` has at most 500 characters,
      `experience` is one of the six levels. */
  predicate PatchValid(p: Patch) {
    && (p.name.Some? ==> Trim(p.name.value) != "")
    && (p.bio.Some? ==> Utf16Length(p.bio.value) <= MaxBioLength)
    && (p.experience.Some? ==> p.experience.value in ExperienceNames)
  }

  /** The stored user after the update, with the `trim` setters of `name`
      and of each skill applied. */
  function ApplyPatch(u: User, p: Patch): User
    requires PatchValid(p)
  {
    User(
      u.id,
      if p.name.Some? then Some(Trim(p.name.value)) else u.name,
      if p.walletAddress.Some? then p.walletAddress.value else u.walletAddress,
      u.email,
      u.password,
      if p.bio.Some? then p.bio.value else u.bio,
      if p.linkedinUrl.Some? then p.linkedinUrl.value else u.linkedinUrl,
      if p.skills.Some? then TrimEach(p.skills.value) else u.skills,
      u.profileImage,
      if p.location.Some? then p.location.value else u.location,
      if p.experience.Some? then ParseExperience(p.experience.value).value else u.experience)
  }

  /** `PUT /users/profile` as a step on the collection. Validation fails
      with 500 before any lookup; an unknown caller gets 200 and a null user. */
  function UpdateStep(users: seq<User>, caller: Id, b: ProfileBody): (r: (seq<User>, Reply<PublicUser>))
    ensures |r.0| == |users|
    ensures r.1.status in {200, 500}
    ensures r.1.status == 500 ==> r.0 == users
    ensures IndexOf(users, caller).None? ==> r.0 == users && r.1.body.None?
    ensures r.1.body.Some? ==> exists k :: 0 <= k < |r.0| && r.0[k].id == caller && r.1.body.value == ToJSON(r.0[k])
  {
    var p := SelectFields(b);
    if !PatchValid(p) then (users, Reply(500, "Server error", None))
    else
      match IndexOf(users, caller)
      case None => (users, Reply(200, "Profile updated successfully", None))
      case Some(i) =>
        var u := ApplyPatch(users[i], p);
        assert users[i := u][i] == u;
        (users[i := u], Reply(200, "Profile updated successfully", Some(ToJSON(u))))
  }

  /** The update is rejected exactly when a blank name, an over-long bio or
      an unknown experience level is sent, and then nothing changes. */
  lemma UpdateRejects(users: seq<User>, caller: Id, b: ProfileBody)
    ensures var (after, r) := UpdateStep(users, caller, b);
            && (r.status == 500 <==>
                  || (Given(b.name) && IsBlank(b.name.value))
                  || (b.bio.Some? && Utf16Length(b.bio.value) > MaxBioLength)
                  || (Given(b.experience) && b.experience.value !in ExperienceNames))
            && (r.status == 500 ==> after == users && r.body.None?)
            && (r.status != 500 ==> r.status == 200)
  {
  }

  /** An accepted update of a known caller changes that caller's document
      and no other: `name`, `skills` and `experience` only when sent truthy,
      the other four whenever sent, and never `email`, `password` or
      `profileImage`. The reply carries the updated public form. */
  lemma UpdateFieldByField(users: seq<User>, caller: Id, b: ProfileBody)
    requires PatchValid(SelectFields(b))
    requires exists k :: 0 <= k < |users| && users[k].id == caller
    ensures var (after, r) := UpdateStep(users, caller, b);
            var i := IndexOf(users, caller).value;
            var u := users[i];
            var v := after[i];
            && |after| == |users|
            && (forall k :: 0 <= k < |users| && k != i ==> after[k] == users[k])
            && r == Reply(200, "Profile updated successfully", Some(ToJSON(v)))
            && v.id == u.id && v.email == u.email && v.password == u.password
            && v.profileImage == u.profileImage
            && v.name == (if Given(b.name) then Some(Trim(b.name.value)) else u.name)
            && v.bio == (if b.bio.Some? then b.bio.value else u.bio)
            && v.linkedinUrl == (if b.linkedinUrl.Some? then b.linkedinUrl.value else u.linkedinUrl)
            && v.skills == (if b.skills.Some? then TrimEach(b.skills.value) else u.skills)
            && v.walletAddress == (if b.walletAddress.Some? then b.walletAddress.value else u.walletAddress)
            && v.location == (if b.location.Some? then b.location.value else u.location)
            && (Given(b.experience) ==> ExperienceName(v.experience) == b.experience.value)
            && (!Given(b.experience) ==> v.experience == u.experience)
  {
  }

  /** A body with none of the recognised fields in a form that counts
      leaves every stored user as it was. */
  lemma UpdateEmptyBody(users: seq<User>, caller: Id, b: ProfileBody)
    requires !Given(b.name) && !Given(b.experience)
    requires b.bio.None? && b.linkedinUrl.None? && b.skills.None?
    requires b.walletAddress.None? && b.location.None?
    ensures UpdateStep(users, caller, b).0 == users
  {
  }

  // ---------------------------------------------------------------------
  // Connecting a wallet

  /** The document the upsert inserts: the filter's `email`, the update's
      `walletAddress`, and the schema defaults for the rest. No name and no
      password are set, as the upsert runs no validators. */
  function NewWalletUser(id: Id, email: string, wallet: string): User {
    User(id, None, wallet, email, None, "", "", [], "", "", DefaultExperience)
  }

  /** `POST /users/connect-wallet` as a step on the collection. */
  function ConnectWalletStep(users: seq<User>, email: Option<string>, wallet: Option<string>, newId: Id)
    : (r: (seq<User>, Reply<PublicUser>))
    ensures r.1.status in {200, 400}
    ensures r.1.status == 400 ==> r.0 == users
    ensures r.1.status == 200 <==> Given(email) && Given(wallet)
    ensures Given(email) && Given(wallet) ==>
      && r.1.body.Some?
      && r.1.body.value.email == NormalizeEmail(email.value)
      && r.1.body.value.walletAddress == wallet.value
      && |r.0| >= |users|
  {
    if !Given(email) || !Given(wallet) then
      (users, Reply(400, "Email and wallet address are required", None))
    else
      var e := NormalizeEmail(email.value);
      match IndexOfEmail(users, e)
      case Some(i) =>
        var u := users[i].(walletAddress := wallet.value);
        (users[i := u], Reply(200, "Wallet connected successfully", Some(ToJSON(u))))
      case None =>
        var u := NewWalletUser(newId, e, wallet.value);
        ([u] + users, Reply(200, "Wallet connected successfully", Some(ToJSON(u))))
  }

  // ---------------------------------------------------------------------
  // The collection invariant

  predicate DistinctIds(users: seq<User>) {
    forall a, b :: 0 <= a < b < |users| ==> users[a].id != users[b].id
  }

  /** The unique index on `email`. */
  predicate UniqueEmails(users: seq<User>) {
    forall a, b :: 0 <= a < b < |users| ==> users[a].email != users[b].email
  }

  /** What every stored user satisfies, however it was written: a
      normalised address, a bio within its limit, trimmed skills, and a
      trimmed non-empty name unless the upsert left it out. */
  predicate StoredUser(u: User) {
    && NormalEmail(u.email)
    && Utf16Length(u.bio) <= MaxBioLength
    && AllTrimmed(u.skills)
    && (u.name.Some? ==> u.name.value != "" && IsTrimmed(u.name.value))
  }

  predicate ValidDirectory(users: seq<User>) {
    && DistinctIds(users)
    && UniqueEmails(users)
    && forall k :: 0 <= k < |users| ==> StoredUser(users[k])
  }

  lemma PrependKeepsValid(users: seq<User>, u: User)
    requires ValidDirectory(users) && StoredUser(u)
    requires forall k :: 0 <= k < |users| ==> users[k].id != u.id && users[k].email != u.email
    ensures ValidDirectory([u] + users)
  {
    var all := [u] + users;
    forall k | 1 <= k < |all| ensures all[k] == users[k - 1] { }
    assert DistinctIds(all) && UniqueEmails(all);
    forall k | 0 <= k < |all| ensures StoredUser(all[k]) {
      if k > 0 {
        assert all[k] == users[k - 1];
      }
    }
  }

  lemma ReplaceKeepsValid(users: seq<User>, i: nat, u: User)
    requires ValidDirectory(users) && i < |users| && StoredUser(u)
    requires u.id == users[i].id && u.email == users[i].email
    ensures ValidDirectory(users[i := u])
  {
    var all := users[i := u];
    assert DistinctIds(all) && UniqueEmails(all);
    forall k | 0 <= k < |all| ensures StoredUser(all[k]) {
      if k != i {
        assert all[k] == users[k];
      }
    }
  }

  /** The profile update keeps the collection invariant. */
  lemma UpdateKeepsValid(users: seq<User>, caller: Id, b: ProfileBody)
    requires ValidDirectory(users)
    ensures ValidDirectory(UpdateStep(users, caller, b).0)
  {
    var p := SelectFields(b);
    if PatchValid(p) && IndexOf(users, caller).Some? {
      var i := IndexOf(users, caller).value;
      var u := ApplyPatch(users[i], p);
      assert p.name.Some? ==> IsTrimmed(Trim(p.name.value));
      ReplaceKeepsValid(users, i, u);
    }
  }

  /** A missing or empty address or wallet address is rejected with 400
      and changes nothing; otherwise the reply is 200. */
  lemma ConnectWalletRequired(users: seq<User>, email: Option<string>, wallet: Option<string>, newId: Id)
    ensures var (after, r) := ConnectWalletStep(users, email, wallet, newId);
            && (r.status == 400 <==> !Given(email) || !Given(wallet))
            && (r.status == 400 ==> after == users && r.body.None?)
            && (r.status != 400 ==> r.status == 200 && r.body.Some?)
  {
  }

  /** When a user already has the normalised address, that user, and only
      that user, gets the wallet address, and the reply shows it. */
  lemma ConnectWalletUpdates(users: seq<User>, email: Option<string>, wallet: Option<string>, newId: Id)
    requires UniqueEmails(users)
    requires Given(email) && Given(wallet)
    requires exists k :: 0 <= k < |users| && users[k].email == NormalizeEmail(email.value)
    ensures var (after, r) := ConnectWalletStep(users, email, wallet, newId);
            var e := NormalizeEmail(email.value);
            && |after| == |users|
            && (forall k :: 0 <= k < |users| ==>
                  after[k] == if users[k].email == e then users[k].(walletAddress := wallet.value) else users[k])
            && (exists i :: 0 <= i < |after| && after[i].email == e && after[i].walletAddress == wallet.value
                  && r.body == Some(ToJSON(after[i])))
  {
    var e := NormalizeEmail(email.value);
    var i := IndexOfEmail(users, e).value;
    var u := users[i].(walletAddress := wallet.value);
    var after := users[i := u];
    assert ConnectWalletStep(users, email, wallet, newId) == (after, Reply(200, "Wallet connected successfully", Some(ToJSON(u))));
    forall k | 0 <= k < |users|
      ensures after[k] == if users[k].email == e then users[k].(walletAddress := wallet.value) else users[k]
    {
      if k != i {
        assert users[k].email != users[i].email;
      }
    }
    assert after[i].email == e && after[i].walletAddress == wallet.value;
  }

  /** When no user has the normalised address, one is inserted in front
      with that address, the wallet address and the defaults, and the
      others follow unchanged. */
  lemma ConnectWalletInserts(users: seq<User>, email: Option<string>, wallet: Option<string>, newId: Id)
    requires Given(email) && Given(wallet)
    requires forall k :: 0 <= k < |users| ==> users[k].email != NormalizeEmail(email.value)
    ensures var (after, r) := ConnectWalletStep(users, email, wallet, newId);
            var u := NewWalletUser(newId, NormalizeEmail(email.value), wallet.value);
            && after == [u] + users
            && r == Reply(200, "Wallet connected successfully", Some(ToJSON(u)))
  {
  }

  /** A user that the upsert inserted has no password, so `comparePassword`
      on it rejects rather than answering no. */
  lemma InsertedUserCannotCompare(users: seq<User>, email: Option<string>, wallet: Option<string>,
                                  newId: Id, candidate: string, hash: string -> string)
    requires Given(email) && Given(wallet)
    requires forall k :: 0 <= k < |users| ==> users[k].email != NormalizeEmail(email.value)
    ensures var after := ConnectWalletStep(users, email, wallet, newId).0;
            |after| == |users| + 1 && ComparePassword(candidate, after[0].password, hash).None?
  {
  }

  /** Connecting a wallet keeps the collection invariant, the unique
      address index in particular. */
  lemma ConnectWalletKeepsValid(users: seq<User>, email: Option<string>, wallet: Option<string>, newId: Id)
    requires ValidDirectory(users)
    requires forall k :: 0 <= k < |users| ==> users[k].id != newId
    ensures ValidDirectory(ConnectWalletStep(users, email, wallet, newId).0)
  {
    if Given(email) && Given(wallet) {
      var e := NormalizeEmail(email.value);
      var found := IndexOfEmail(users, e);
      if found.Some? {
        SetWalletKeepsValid(users, found.value, wallet.value);
      } else {
        InsertWalletUserKeepsValid(users, e, wallet.value, newId);
      }
    }
  }

  lemma SetWalletKeepsValid(users: seq<User>, i: nat, wallet: string)
    requires ValidDirectory(users) && i < |users|
    ensures ValidDirectory(users[i := users[i].(walletAddress := wallet)])
  {
    assert StoredUser(users[i]);
    ReplaceKeepsValid(users, i, users[i].(walletAddress := wallet));
  }

  lemma InsertWalletUserKeepsValid(users: seq<User>, e: string, wallet: string, newId: Id)
    requires ValidDirectory(users) && NormalEmail(e)
    requires forall k :: 0 <= k < |users| ==> users[k].id != newId && users[k].email != e
    ensures ValidDirectory([NewWalletUser(newId, e, wallet)] + users)
  {
    PrependKeepsValid(users, NewWalletUser(newId, e, wallet));
  }

  // ---------------------------------------------------------------------
  // Searching

  const SearchLimit := 20

  /** The search's query-string parameters. */
  datatype SearchParams = SearchParams(q: Option<string>, skills: Option<string>)

  /** The search's filter object; a `None` field is a key it lacks. */
  datatype SearchQuery = SearchQuery(text: Option<string>, skills: Option<seq<string>>)

  function SearchQueryOf(p: SearchParams): SearchQuery {
    SearchQuery(
      if Given(p.q) then p.q else None,
      if Given(p.skills) then Some(CommaList(p.skills.value)) else None)
  }

  /** Builds the filter object key by key, as the handler does. */
  method BuildSearchQuery(p: SearchParams) returns (query: SearchQuery)
    ensures query == SearchQueryOf(p)
  {
    query := SearchQuery(None, None);
    if Given(p.q) {
      query := query.(text := p.q);
    }
    if Given(p.skills) {
      query := query.(skills := Some(CommaList(p.skills.value)));
    }
  }

  /** The `$or` of case-insensitive matches on name and bio; a user without
      a name can match only through the bio. */
  predicate NameOrBio(u: User, q: string) {
    (u.name.Some? && ContainsIgnoreCase(u.name.value, q)) || ContainsIgnoreCase(u.bio, q)
  }

  predicate UserMatches(query: SearchQuery, u: User) {
    && (query.text.Some? ==> NameOrBio(u, query.text.value))
    && (query.skills.Some? ==> Intersects(u.skills, query.skills.value))
  }

  /** The users a filter object selects, in store order (newest first). */
  function MatchingUsers(users: seq<User>, query: SearchQuery): (r: seq<User>)
    ensures |r| <= |users|
    ensures forall k :: 0 <= k < |r| ==> r[k] in users && UserMatches(query, r[k])
    ensures forall k :: 0 <= k < |users| && UserMatches(query, users[k]) ==> users[k] in r
  {
    var keep := (u: User) => UserMatches(query, u);
    FilterMembers(users, keep);
    Filter(users, keep)
  }

  function Publics(us: seq<User>): (r: seq<PublicUser>)
    ensures |r| == |us|
    ensures forall k :: 0 <= k < |us| ==> r[k] == ToJSON(us[k])
  {
    seq(|us|, k requires 0 <= k < |us| => ToJSON(us[k]))
  }

  /** `GET /users/search`: the first 20 matching users, public forms only. */
  function Search(users: seq<User>, p: SearchParams): (r: seq<PublicUser>)
    ensures |r| <= SearchLimit && |r| <= |users|
  {
    Publics(Window(MatchingUsers(users, SearchQueryOf(p)), 0, SearchLimit))
  }

  /** A user matches the search exactly when it meets every given
      parameter: `q` against name or bio ignoring case, `skills` as an
      intersection with the comma-split, trimmed list. */
  lemma SearchMatchIff(p: SearchParams, u: User)
    ensures UserMatches(SearchQueryOf(p), u) <==>
      && (Given(p.q) ==> NameOrBio(u, p.q.value))
      && (Given(p.skills) ==> Intersects(u.skills, CommaList(p.skills.value)))
  {
  }

  /** The search returns the public forms of the first matching users in
      store order: all of them when there are at most 20, otherwise the
      first 20. */
  lemma SearchMeaning(users: seq<User>, p: SearchParams)
    ensures var m := MatchingUsers(users, SearchQueryOf(p));
            var r := Search(users, p);
            && |r| == (if |m| <= SearchLimit then |m| else SearchLimit)
            && forall k :: 0 <= k < |r| ==> r[k] == ToJSON(m[k]) && m[k] in users
  {
  }

  // ---------------------------------------------------------------------
  // The collection and its handlers

  class UserDirectory {
    /** The collection, newest user first. */
    var users: seq<User>

    ghost predicate Valid()
      reads this
    {
      ValidDirectory(users)
    }

    constructor ()
      ensures Valid() && users == []
    {
      users := [];
    }

    /** `GET /users/profile/:id`. */
    method GetProfile(id: Id) returns (r: Reply<PublicUser>)
      ensures r == Profile(users, id)
    {
      var i := IndexOf(users, id);
      if i.None? {
        return Reply(404, "User not found", None);
      }
      r := Reply(200, "", Some(ToJSON(users[i.value])));
    }

    /** `PUT /users/profile`: builds the update document, validates it,
        and updates the caller's document in place. */
    method Update(caller: Id, b: ProfileBody) returns (r: Reply<PublicUser>)
      requires Valid()
      modifies this
      ensures Valid()
      ensures (users, r) == UpdateStep(old(users), caller, b)
    {
      UpdateKeepsValid(users, caller, b);
      var patch := BuildUpdate(b);
      if !PatchValid(patch) {
        return Reply(500, "Server error", None);
      }
      var i := IndexOf(users, caller);
      if i.None? {
        return Reply(200, "Profile updated successfully", None);
      }
      var u := ApplyPatch(users[i.value], patch);
      users := users[i.value := u];
      r := Reply(200, "Profile updated successfully", Some(ToJSON(u)));
    }

    /** `POST /users/connect-wallet`; `newId` is the id an insert would get. */
    method ConnectWallet(email: Option<string>, wallet: Option<string>, newId: Id) returns (r: Reply<PublicUser>)
      requires Valid()
      requires forall k :: 0 <= k < |users| ==> users[k].id != newId
      modifies this
      ensures Valid()
      ensures (users, r) == ConnectWalletStep(old(users), email, wallet, newId)
    {
      ConnectWalletKeepsValid(users, email, wallet, newId);
      if !Given(email) || !Given(wallet) {
        return Reply(400, "Email and wallet address are required", None);
      }
      var e := NormalizeEmail(email.value);
      var i := IndexOfEmail(users, e);
      var u: User;
      if i.Some? {
        u := users[i.value].(walletAddress := wallet.value);
        users := users[i.value := u];
      } else {
        u := NewWalletUser(newId, e, wallet.value);
        users := [u] + users;
      }
      r := Reply(200, "Wallet connected successfully", Some(ToJSON(u)));
    }

    /** `GET /users/search`. */
    method Find(p: SearchParams) returns (r: seq<PublicUser>)
      ensures r == Search(users, p)
      ensures |r| <= SearchLimit
    {
      var query := BuildSearchQuery(p);
      r := Publics(Window(MatchingUsers(users, query), 0, SearchLimit));
    }
  }
}
