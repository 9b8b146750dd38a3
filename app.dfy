/** The application shell: the avatar initial, the profile written on login,
    the account deletion cascade and the profile dialog's handlers. */
module App {
  import opened Common
  import opened Text
  import opened Firestore
  import opened FirebaseAuth

  const Users := "users"

  // ---------------------------------------------------------------------------
  // Avatar

  /** `displayName ? displayName[0] : email ? email[0] : '?'`, as the UTF-16
      code unit the avatar shows. */
  function AvatarInitial(displayName: Option<string>, email: Option<string>): nat {
    if displayName.Some? && displayName.value != "" then FirstCodeUnit(displayName.value)
    else if email.Some? && email.value != "" then FirstCodeUnit(email.value)
    else '?' as int
  }

  /** The first character of `s` when it lies in the Basic Multilingual Plane,
      and otherwise only the high surrogate half of it. */
  predicate StartsAvatar(u: nat, s: string) {
    s != "" &&
    (if s[0] as int < 0x1_0000 then u == s[0] as int
     else 0xD800 <= u < 0xDC00 && u == Utf16(s[0])[0])
  }

  /** The initial comes from the name when there is one, else from the e-mail
      address, and is `?` only when the user has neither; a first character
      outside the Basic Multilingual Plane contributes only its high surrogate. */
  lemma AvatarInitialSource(displayName: Option<string>, email: Option<string>)
    ensures OrEmpty(displayName) != "" ==> StartsAvatar(AvatarInitial(displayName, email), OrEmpty(displayName))
    ensures OrEmpty(displayName) == "" && OrEmpty(email) != "" ==> StartsAvatar(AvatarInitial(displayName, email), OrEmpty(email))
    ensures OrEmpty(displayName) == "" && OrEmpty(email) == "" ==> AvatarInitial(displayName, email) == '?' as int
    ensures (AvatarInitial(displayName, email) == '?' as int && '?' !in OrEmpty(displayName) && '?' !in OrEmpty(email)) ==>
      OrEmpty(displayName) == "" && OrEmpty(email) == ""
  {
    if OrEmpty(displayName) != "" {
      Utf16RoundTrip(OrEmpty(displayName)[0]);
    } else if OrEmpty(email) != "" {
      Utf16RoundTrip(OrEmpty(email)[0]);
    }
  }

  // ---------------------------------------------------------------------------
  // Profile sync on login

  function UserKey(uid: string): DocKey {
    DocKey(Users, uid)
  }

  /** The fields `syncUser` writes to `users/uid`. */
  function ProfileFields(uid: string, email: Option<string>, displayName: Option<string>): Doc {
    map["email" := Str(OrEmpty(email)), "displayName" := Str(OrEmpty(displayName)), "uid" := Str(uid)]
  }

  /** After the profile write, the three profile fields hold the user's values
      (missing ones as `''`), every other field of the profile survives, and no
      other document changes. */
  lemma SyncUserEffect(docs: map<DocKey, Doc>, uid: string, email: Option<string>, displayName: Option<string>)
    ensures var after := MergeUpsert(docs, UserKey(uid), ProfileFields(uid, email, displayName));
      var p := after[UserKey(uid)];
      && p["email"] == Str(if email.Some? then email.value else "")
      && p["displayName"] == Str(if displayName.Some? then displayName.value else "")
      && p["uid"] == Str(uid)
      && (forall f :: UserKey(uid) in docs && f in docs[UserKey(uid)] && f != "email" && f != "displayName" && f != "uid" ==>
            f in p && p[f] == docs[UserKey(uid)][f])
      && (forall k :: k in docs && k != UserKey(uid) ==> k in after && after[k] == docs[k])
  {
    MergeUpsertEffect(docs, UserKey(uid), ProfileFields(uid, email, displayName));
  }

  /** Syncing the same user twice leaves the store as syncing once does. */
  lemma SyncUserIdempotent(docs: map<DocKey, Doc>, uid: string, email: Option<string>, displayName: Option<string>)
    ensures var fields := ProfileFields(uid, email, displayName);
      MergeUpsert(MergeUpsert(docs, UserKey(uid), fields), UserKey(uid), fields) == MergeUpsert(docs, UserKey(uid), fields)
  {
    MergeUpsertIdempotent(docs, UserKey(uid), ProfileFields(uid, email, displayName));
  }

  /** `syncUser`: the merging profile write run whenever a user is signed in. */
  method SyncUser(db: Database, user: User, ok: bool)
    modifies db
    ensures db.docs == if ok then MergeUpsert(old(db.docs), UserKey(user.uid), ProfileFields(user.uid, user.email, user.displayName))
                       else old(db.docs)
  {
    var _ := db.SetDoc(UserKey(user.uid), ProfileFields(user.uid, user.email, user.displayName), true, ok);
  }

  // ---------------------------------------------------------------------------
  // Account deletion cascade

  /** The media documents with the ids of `snaps`. */
  function MediaKeys(snaps: seq<Snapshot>): set<DocKey> {
    set i | 0 <= i < |snaps| :: DocKey(Media, snaps[i].id)
  }

  /** One more snapshot adds its key. */
  lemma MediaKeysStep(snaps: seq<Snapshot>, i: nat)
    requires i < |snaps|
    ensures MediaKeys(snaps[..i + 1]) == MediaKeys(snaps[..i]) + {DocKey(Media, snaps[i].id)}
  {
    assert forall j :: 0 <= j < i + 1 ==> snaps[..i + 1][j] == snaps[j];
    assert forall j :: 0 <= j < i ==> snaps[..i][j] == snaps[j];
  }

  /** The media documents that belong to `uid`. */
  ghost function OwnedKeys(docs: map<DocKey, Doc>, uid: string): set<DocKey> {
    set k | k in docs && k.collection == Media && FieldEquals(docs[k], "userId", Str(uid))
  }

  /** How many media deletes succeed when the one at `failAt` (if any) fails. */
  function Deleted(failAt: Option<nat>, n: nat): (r: nat)
    ensures r <= n
    ensures r < n <==> failAt.Some? && failAt.value < n
  {
    if failAt.Some? && failAt.value < n then failAt.value else n
  }

  /** The store after `deleteUserCompletely`, and whether it completed:
      the profile delete, then the owner query on what is left, then the owned
      media deletes in query order, the one at `failAt` failing and stopping the rest. */
  ghost predicate CascadeEffect(before: map<DocKey, Doc>, after: map<DocKey, Doc>, uid: string,
                                profileOk: bool, queryOk: bool, failAt: Option<nat>, owned: seq<Snapshot>, completed: bool)
  {
    if !profileOk then after == before && !completed
    else if !queryOk then after == before - {UserKey(uid)} && !completed
    else
      && IsQueryResult(before - {UserKey(uid)}, Media, "userId", Str(uid), owned)
      && after == before - {UserKey(uid)} - MediaKeys(owned[..Deleted(failAt, |owned|)])
      && completed == (Deleted(failAt, |owned|) == |owned|)
  }

  /** `deleteUserCompletely(uid)`. `owned` is the query's answer. */
  method DeleteUserCompletely(db: Database, uid: string, profileOk: bool, queryOk: bool, failAt: Option<nat>)
    returns (r: Outcome, ghost owned: seq<Snapshot>)
    modifies db
    ensures CascadeEffect(old(db.docs), db.docs, uid, profileOk, queryOk, failAt, owned, r == Done)
  {
    owned := [];
    var p := db.DeleteDoc(UserKey(uid), profileOk);
    if p == Failed {
      return Failed, owned;
    }
    var q := db.Query(Media, "userId", Str(uid), queryOk);
    if q.Err? {
      return Failed, owned;
    }
    owned := q.value;
    ghost var start := db.docs;
    var snaps := q.value;
    var i := 0;
    while i < |snaps|
      invariant 0 <= i <= |snaps|
      invariant i <= Deleted(failAt, |snaps|)
      invariant db.docs == start - MediaKeys(snaps[..i])
    {
      var d := db.DeleteDoc(DocKey(Media, snaps[i].id), failAt != Some(i));
      if d == Failed {
        return Failed, owned;
      }
      MediaKeysStep(snaps, i);
      i := i + 1;
    }
    assert snaps[..i] == snaps;
    r := Done;
  }

  /** A completed cascade leaves no profile and no media document of the user,
      and leaves every other document as it was. */
  lemma CascadeRemovesExactlyOwned(before: map<DocKey, Doc>, after: map<DocKey, Doc>, uid: string,
                                   failAt: Option<nat>, owned: seq<Snapshot>)
    requires CascadeEffect(before, after, uid, true, true, failAt, owned, true)
    ensures UserKey(uid) !in after
    ensures OwnedKeys(after, uid) == {}
    ensures forall k :: k in before && k != UserKey(uid) && k !in OwnedKeys(before, uid) ==> k in after && after[k] == before[k]
    ensures after.Keys == before.Keys - {UserKey(uid)} - OwnedKeys(before, uid)
  {
    var rest := before - {UserKey(uid)};
    assert owned[..Deleted(failAt, |owned|)] == owned;
    assert MediaKeys(owned) == OwnedKeys(rest, uid) by {
      forall k | k in OwnedKeys(rest, uid) ensures k in MediaKeys(owned) {
        var i :| 0 <= i < |owned| && owned[i].id == k.id;
        assert k == DocKey(Media, owned[i].id);
      }
    }
    assert OwnedKeys(rest, uid) == OwnedKeys(before, uid) by {
      assert UserKey(uid).collection != Media;
    }
  }

  /** A cascade stopped by the failing delete at position `k` of the query
      answer has removed the profile and exactly the owned media before `k`;
      the media from `k` on are all still stored, unchanged. */
  lemma CascadeStoppedAt(before: map<DocKey, Doc>, after: map<DocKey, Doc>, uid: string,
                         k: nat, owned: seq<Snapshot>)
    requires CascadeEffect(before, after, uid, true, true, Some(k), owned, false)
    ensures k < |owned|
    ensures UserKey(uid) !in after
    ensures forall i :: 0 <= i < k ==> DocKey(Media, owned[i].id) !in after
    ensures forall i :: k <= i < |owned| ==>
      DocKey(Media, owned[i].id) in after && after[DocKey(Media, owned[i].id)] == owned[i].data
  {
    forall i | k <= i < |owned|
      ensures DocKey(Media, owned[i].id) !in MediaKeys(owned[..k])
    {
      forall j | 0 <= j < k ensures DocKey(Media, owned[..k][j].id) != DocKey(Media, owned[i].id) {
        assert owned[..k][j] == owned[j];
      }
    }
    forall i | 0 <= i < k ensures DocKey(Media, owned[i].id) in MediaKeys(owned[..k]) {
      assert owned[..k][i] == owned[i];
    }
  }

  // ---------------------------------------------------------------------------
  // Profile dialog

  /** Which message the snackbar shows. */
  datatype Notice =
    | Blank
    | NameUpdated | NameUpdateFailed
    | PasswordUpdated | PasswordChangeFailed
    | AccountDeleted | AccountDeleteFailed
    | GoogleLinked | GoogleLinkFailed
    | GoogleUnlinked | GoogleUnlinkFailed

  datatype Severity = Success | Error

  datatype Snackbar = Snackbar(open: bool, notice: Notice, severity: Severity)

  /** Whether the password change re-authenticates first: only with both an
      e-mail address and a current password. */
  predicate ReauthFirst(email: Option<string>, currentPassword: string) {
    email.Some? && email.value != "" && currentPassword != ""
  }

  /** The identity-provider calls `handleChangePassword` makes: the optional
      re-authentication, then the password update unless re-authentication failed. */
  function PasswordCalls(email: Option<string>, currentPassword: string, newPassword: string, reauthOk: bool): (r: seq<AuthCall>)
    ensures |r| <= 2
    ensures UpdatePassword(newPassword) in r <==> !ReauthFirst(email, currentPassword) || reauthOk
    ensures ReauthFirst(email, currentPassword) <==> r != [] && r[0].Reauthenticate?
    ensures ReauthFirst(email, currentPassword) ==> r[0] == Reauthenticate(email.value, currentPassword)
  {
    (if ReauthFirst(email, currentPassword) then [Reauthenticate(email.value, currentPassword)] else [])
    + (if !ReauthFirst(email, currentPassword) || reauthOk then [UpdatePassword(newPassword)] else [])
  }

  /** The password is never updated after a failed re-authentication, and when
      both calls are made re-authentication comes first. */
  lemma PasswordOrdering(email: Option<string>, currentPassword: string, newPassword: string, reauthOk: bool)
    ensures ReauthFirst(email, currentPassword) && !reauthOk ==>
      PasswordCalls(email, currentPassword, newPassword, reauthOk) == [Reauthenticate(email.value, currentPassword)]
    ensures |PasswordCalls(email, currentPassword, newPassword, reauthOk)| == 2 ==>
      PasswordCalls(email, currentPassword, newPassword, reauthOk)[0].Reauthenticate? &&
      PasswordCalls(email, currentPassword, newPassword, reauthOk)[1] == UpdatePassword(newPassword)
  {
  }

  class ProfileDialog {
    const user: User
    const db: Database
    var displayName: string
    var newPassword: string
    var currentPassword: string
    var loading: bool
    var snackbar: Snackbar
    var deleteConfirm: bool
    var googleLinked: bool

    /** The Google flag agrees with the user's linked providers. */
    ghost predicate Valid()
      reads this, user
    {
      googleLinked == (GoogleProviderId in user.providerIds)
    }

    constructor (user: User, db: Database)
      ensures this.user == user && this.db == db
      ensures displayName == OrEmpty(user.displayName)
      ensures newPassword == "" && currentPassword == "" && !loading && !deleteConfirm
      ensures snackbar == Snackbar(false, Blank, Success)
      ensures googleLinked == (GoogleProviderId in user.providerIds)
      ensures Valid()
    {
      this.user := user;
      this.db := db;
      displayName := OrEmpty(user.displayName);
      newPassword := "";
      currentPassword := "";
      loading := false;
      snackbar := Snackbar(false, Blank, Success);
      deleteConfirm := false;
      googleLinked := GoogleProviderId in user.providerIds;
    }

    method SetNameInput(name: string)
      modifies this`displayName
      ensures displayName == name
    {
      displayName := name;
    }

    method SetPasswordInputs(current: string, next: string)
      modifies this`currentPassword, this`newPassword
      ensures currentPassword == current && newPassword == next
    {
      currentPassword := current;
      newPassword := next;
    }

    /** The delete button opens the confirmation; its cancel button closes it. */
    method SetDeleteConfirm(open: bool)
      modifies this`deleteConfirm
      ensures deleteConfirm == open
    {
      deleteConfirm := open;
    }

    method CloseSnackbar()
      modifies this`snackbar
      ensures snackbar == old(snackbar).(open := false)
    {
      snackbar := snackbar.(open := false);
    }

    /** `handleUpdateName`. */
    method UpdateName(ok: bool)
      requires Valid()
      modifies this`loading, this`snackbar, user`displayName, user`calls
      ensures Valid()
      ensures !loading
      ensures user.calls == old(user.calls) + [UpdateProfile(displayName)]
      ensures user.displayName == if ok then Some(displayName) else old(user.displayName)
      ensures snackbar == if ok then Snackbar(true, NameUpdated, Success) else Snackbar(true, NameUpdateFailed, Error)
    {
      loading := true;
      var r := user.SetDisplayName(displayName, ok);
      if r == Done {
        snackbar := Snackbar(true, NameUpdated, Success);
      } else {
        snackbar := Snackbar(true, NameUpdateFailed, Error);
      }
      loading := false;
    }

    /** `handleChangePassword`: both password inputs are cleared only on success. */
    method ChangePassword(reauthOk: bool, updateOk: bool)
      requires Valid()
      modifies this`loading, this`snackbar, this`newPassword, this`currentPassword, user`calls
      ensures Valid()
      ensures !loading
      ensures user.calls == old(user.calls) + PasswordCalls(user.email, old(currentPassword), old(newPassword), reauthOk)
      ensures var succeeded := (!ReauthFirst(user.email, old(currentPassword)) || reauthOk) && updateOk;
        if succeeded then
          newPassword == "" && currentPassword == "" && snackbar == Snackbar(true, PasswordUpdated, Success)
        else
          && newPassword == old(newPassword) && currentPassword == old(currentPassword)
          && snackbar == Snackbar(true, PasswordChangeFailed, Error)
    {
      loading := true;
      var failed := false;
      if ReauthFirst(user.email, currentPassword) {
        var a := user.Reauth(user.email.value, currentPassword, reauthOk);
        failed := a == Failed;
      }
      if !failed {
        var b := user.SetPassword(newPassword, updateOk);
        failed := b == Failed;
      }
      if failed {
        snackbar := Snackbar(true, PasswordChangeFailed, Error);
      } else {
        snackbar := Snackbar(true, PasswordUpdated, Success);
        newPassword := "";
        currentPassword := "";
      }
      loading := false;
    }

    /** `handleDeleteAccount`: the cascade, then the identity delete only when
        the cascade completed. The dialog always ends idle and unconfirmed. */
    method DeleteAccount(profileOk: bool, queryOk: bool, failAt: Option<nat>, deleteUserOk: bool)
      returns (ghost owned: seq<Snapshot>, ghost completed: bool)
      requires Valid()
      modifies this`loading, this`snackbar, this`deleteConfirm, db, user`deleted, user`calls
      ensures Valid()
      ensures !loading && !deleteConfirm
      ensures CascadeEffect(old(db.docs), db.docs, user.uid, profileOk, queryOk, failAt, owned, completed)
      ensures completed ==> user.calls == old(user.calls) + [DeleteUser] && user.deleted == (old(user.deleted) || deleteUserOk)
      ensures !completed ==> user.calls == old(user.calls) && user.deleted == old(user.deleted)
      ensures snackbar == if completed && deleteUserOk then Snackbar(true, AccountDeleted, Success)
                          else Snackbar(true, AccountDeleteFailed, Error)
    {
      loading := true;
      var r;
      r, owned := DeleteUserCompletely(db, user.uid, profileOk, queryOk, failAt);
      completed := r == Done;
      var ok := false;
      if r == Done {
        var d := user.Delete(deleteUserOk);
        ok := d == Done;
      }
      if ok {
        snackbar := Snackbar(true, AccountDeleted, Success);
      } else {
        snackbar := Snackbar(true, AccountDeleteFailed, Error);
      }
      loading := false;
      deleteConfirm := false;
    }

    /** `handleLinkGoogle`: the flag turns on only after a successful link. */
    method LinkGoogle(ok: bool)
      requires Valid()
      modifies this`loading, this`snackbar, this`googleLinked, user`providerIds, user`calls
      ensures Valid()
      ensures !loading
      ensures user.calls == old(user.calls) + [LinkWithPopup(GoogleProviderId)]
      ensures googleLinked == if ok then true else old(googleLinked)
      ensures snackbar == if ok then Snackbar(true, GoogleLinked, Success) else Snackbar(true, GoogleLinkFailed, Error)
    {
      loading := true;
      var r := user.LinkGoogle(ok);
      if r == Done {
        snackbar := Snackbar(true, GoogleLinked, Success);
        googleLinked := true;
      } else {
        snackbar := Snackbar(true, GoogleLinkFailed, Error);
      }
      loading := false;
    }

    /** `handleUnlinkGoogle`: the flag turns off only after a successful unlink. */
    method UnlinkGoogle(ok: bool)
      requires Valid()
      modifies this`loading, this`snackbar, this`googleLinked, user`providerIds, user`calls
      ensures Valid()
      ensures !loading
      ensures user.calls == old(user.calls) + [Unlink(GoogleProviderId)]
      ensures googleLinked == if ok then false else old(googleLinked)
      ensures snackbar == if ok then Snackbar(true, GoogleUnlinked, Success) else Snackbar(true, GoogleUnlinkFailed, Error)
    {
      loading := true;
      var r := user.UnlinkProvider(GoogleProviderId, ok);
      if r == Done {
        snackbar := Snackbar(true, GoogleUnlinked, Success);
        googleLinked := false;
      } else {
        snackbar := Snackbar(true, GoogleUnlinkFailed, Error);
      }
      loading := false;
    }
  }
}
