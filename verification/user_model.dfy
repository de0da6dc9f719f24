/** The user document: its fields and defaults, the normalisation its schema
    applies to `email`, the limits checked on save, the pre-save rule that
    hashes a modified password, password comparison and the public JSON form
    without the password. The hash function is a parameter: the model does
    not look inside it. */
module UserModel {
  import opened Common
  import opened Text

  const MinPasswordLength := 6
  const MaxBioLength := 500
  const DefaultExperience := Entry

  /** A stored user. `name` and `password` are `None` on a user that the
      connect-wallet upsert inserted, since that path runs no validators. */
  datatype User = User(
    id: Id,
    name: Option<string>,
    walletAddress: string,
    email: string,
    password: Option<string>,
    bio: string,
    linkedinUrl: string,
    skills: seq<string>,
    profileImage: string,
    location: string,
    experience: ExperienceLevel)

  /** The JSON form of a user: every field except the password. */
  datatype PublicUser = PublicUser(
    id: Id,
    name: Option<string>,
    walletAddress: string,
    email: string,
    bio: string,
    linkedinUrl: string,
    skills: seq<string>,
    profileImage: string,
    location: string,
    experience: ExperienceLevel)

  /** `toJSON`: a copy of the document with `password` deleted and every
      other field kept. */
  function ToJSON(u: User): (r: PublicUser)
    ensures WithPassword(r, u.password) == u
  {
    PublicUser(u.id, u.name, u.walletAddress, u.email, u.bio, u.linkedinUrl,
               u.skills, u.profileImage, u.location, u.experience)
  }

  /** Puts a password field back on a public form. */
  function WithPassword(p: PublicUser, password: Option<string>): User {
    User(p.id, p.name, p.walletAddress, p.email, password, p.bio, p.linkedinUrl,
         p.skills, p.profileImage, p.location, p.experience)
  }

  /** The public form forgets the password and nothing else: two users with
      the same public form differ at most in their passwords. */
  lemma ToJSONForgetsOnlyPassword(u: User, v: User)
    ensures ToJSON(u) == ToJSON(v) <==> u.(password := v.password) == v
  {
    if ToJSON(u) == ToJSON(v) {
      assert WithPassword(ToJSON(u), v.password) == v;
    }
  }

  /** The `lowercase` and `trim` setters on `email`, which run on saved
      values and on query filters alike. */
  function NormalizeEmail(s: string): (r: string)
    ensures |r| <= |s| && NormalEmail(r)
    ensures r == ToLower(Trim(s))
  {
    TrimToLowerCommute(s);
    TrimKeepsNoUpper(ToLower(s));
    Trim(ToLower(s))
  }

  /** An address as the schema stores it: trimmed, no capital letter. */
  predicate NormalEmail(e: string) {
    IsTrimmed(e) && NoUpper(e)
  }

  /** A stored address is its own normal form, so normalising is
      idempotent. */
  lemma NormalEmailFixed(e: string)
    requires NormalEmail(e)
    ensures NormalizeEmail(e) == e
  {
    assert ToLower(e) == e;
    TrimTrimmed(e);
  }

  /** Two addresses that differ only in the case of ASCII letters and in
      surrounding white space normalise to the same stored address, so the
      unique index makes them collide. */
  lemma {:induction false} EmailsCollide(a: string, b: string, pre: string, post: string)
    requires IsBlank(pre) && IsBlank(post)
    requires ToLower(a) == ToLower(b)
    ensures NormalizeEmail(pre + a + post) == NormalizeEmail(b)
  {
    assert ToLower(pre + a + post) == ToLower(pre) + ToLower(a) + ToLower(post);
    assert IsBlank(ToLower(pre)) by {
      forall i | 0 <= i < |pre| ensures IsSpace(ToLower(pre)[i]) {
        assert !('A' <= pre[i] <= 'Z');
      }
    }
    assert IsBlank(ToLower(post)) by {
      forall i | 0 <= i < |post| ensures IsSpace(ToLower(post)[i]) {
        assert !('A' <= post[i] <= 'Z');
      }
    }
    TrimPadded(ToLower(pre), ToLower(a), ToLower(post));
  }

  /** The schema's setters, which run whenever a value is assigned to the
      document: `trim` on `name` and on every skill, `lowercase` and `trim`
      on `email`. Every other path is stored as given. */
  function Setters(u: User): (r: User)
    ensures NormalEmail(r.email) && AllTrimmed(r.skills)
    ensures r.name.Some? <==> u.name.Some?
    ensures r.name.Some? ==> IsTrimmed(r.name.value)
    ensures r.(name := u.name, email := u.email, skills := u.skills) == u
  {
    u.(name := if u.name.Some? then Some(Trim(u.name.value)) else None,
       email := NormalizeEmail(u.email),
       skills := TrimEach(u.skills))
  }

  /** Values that have been through the setters go through them unchanged. */
  lemma SettersIdempotent(u: User)
    ensures Setters(Setters(u)) == Setters(u)
  {
    var v := Setters(u);
    if u.name.Some? {
      TrimIdempotent(u.name.value);
    }
    NormalEmailFixed(v.email);
    TrimEachTrimmed(v.skills);
  }

  /** What `save` validates on the values the setters stored: `name` and
      `email` required (an empty string fails `required`), `password` of at
      least six and `bio` of at most 500 UTF-16 code units. The stored
      password is what is measured, so this check comes before the pre-save
      hook replaces it with a hash. */
  predicate SaveValid(u: User) {
    && u.name.Some? && u.name.value != ""
    && u.email != ""
    && u.password.Some? && Utf16Length(u.password.value) >= MinPasswordLength
    && Utf16Length(u.bio) <= MaxBioLength
  }

  /** A new document passes validation exactly when its name and e-mail
      are not blank before the setters run, and its password and bio have
      lengths within the limits: padding around a name or an address is
      trimmed away, not refused, and an address of white space only is
      refused as missing. */
  lemma SaveValidAfterSetters(u: User)
    ensures SaveValid(Setters(u)) <==>
      && u.name.Some? && !IsBlank(u.name.value)
      && !IsBlank(u.email)
      && u.password.Some? && Utf16Length(u.password.value) >= MinPasswordLength
      && Utf16Length(u.bio) <= MaxBioLength
  {
    assert |NormalizeEmail(u.email)| == |Trim(u.email)|;
  }

  /** `comparePassword`: bcrypt's `compare` of the candidate with the
      stored hash. A document without a password makes `compare` reject
      its arguments ("Illegal arguments"), which is `None` here. */
  function ComparePassword(candidate: string, stored: Option<string>, hash: string -> string): (r: Option<bool>)
    ensures r.None? <==> stored.None?
    ensures r == Some(true) ==> hash(candidate) == stored.value
  {
    if stored.None? then None else Some(hash(candidate) == stored.value)
  }

  /** With an injective hash, the password that was hashed on save is the
      only one that compares equal, and comparing never fails. */
  lemma ComparePasswordIff(candidate: string, password: string, hash: string -> string)
    requires forall x, y :: hash(x) == hash(y) ==> x == y
    ensures ComparePassword(candidate, Some(hash(password)), hash) == Some(candidate == password)
  {
  }

  /** A user document being saved: its field values and whether `password`
      was assigned since the last save (Mongoose's `isModified`). */
  class UserDocument {
    var user: User
    var passwordModified: bool

    /** A new document: the values go through the setters, and every path
        set on it counts as modified. */
    constructor (u: User)
      ensures user == Setters(u) && passwordModified
    {
      user := Setters(u);
      passwordModified := true;
    }

    /** Assigns a new plain-text password. */
    method SetPassword(p: string)
      modifies this
      ensures user == old(user).(password := Some(p)) && passwordModified
    {
      user := user.(password := Some(p));
      passwordModified := true;
    }

    /** The pre-save hook: replaces the password by its hash only when it
        was modified, and otherwise leaves the stored value alone. */
    method PreSave(hash: string -> string)
      modifies this
      ensures passwordModified == old(passwordModified)
      ensures user == if old(passwordModified) && old(user).password.Some?
                      then old(user).(password := Some(hash(old(user).password.value)))
                      else old(user)
    {
      if !passwordModified {
        return;
      }
      if user.password.Some? {
        user := user.(password := Some(hash(user.password.value)));
      }
    }

    /** `save`: validation, then the pre-save hook, after which no path is
        modified any more. A failed validation changes nothing. */
    method Save(hash: string -> string) returns (ok: bool)
      modifies this
      ensures ok <==> SaveValid(old(user))
      ensures ok ==> !passwordModified
      ensures ok ==> user == if old(passwordModified)
                             then old(user).(password := Some(hash(old(user).password.value)))
                             else old(user)
      ensures !ok ==> user == old(user) && passwordModified == old(passwordModified)
    {
      if !SaveValid(user) {
        return false;
      }
      PreSave(hash);
      passwordModified := false;
      ok := true;
    }
  }
}
