/** The identity provider, seen from the client: the signed-in user and the
    calls made on it. Every call takes its outcome `ok` as a parameter and is
    recorded in `calls`, so that a caller's contract can say which calls it made. */
module FirebaseAuth {
  import opened Common

  const GoogleProviderId := "google.com"

  datatype AuthCall =
    | UpdateProfile(displayName: string)
    | Reauthenticate(email: string, password: string)
    | UpdatePassword(newPassword: string)
    | DeleteUser
    | LinkWithPopup(providerId: string)
    | Unlink(providerId: string)

  /** The provider list without the entries of one provider. */
  function WithoutProvider(providerIds: seq<string>, providerId: string): (r: seq<string>)
    ensures forall p :: p in r <==> p in providerIds && p != providerId
  {
    if providerIds == [] then []
    else if providerIds[0] == providerId then WithoutProvider(providerIds[1..], providerId)
    else [providerIds[0]] + WithoutProvider(providerIds[1..], providerId)
  }

  /** The signed-in user (`User` of the identity provider). */
  class User {
    const uid: string
    var email: Option<string>
    var displayName: Option<string>
    var providerIds: seq<string>
    var deleted: bool
    var calls: seq<AuthCall>

    constructor (uid: string, email: Option<string>, displayName: Option<string>, providerIds: seq<string>)
      ensures this.uid == uid && this.email == email && this.displayName == displayName
      ensures this.providerIds == providerIds && !deleted && calls == []
    {
      this.uid := uid;
      this.email := email;
      this.displayName := displayName;
      this.providerIds := providerIds;
      deleted := false;
      calls := [];
    }

    /** `updateProfile(user, { displayName })`. */
    method SetDisplayName(name: string, ok: bool) returns (r: Outcome)
      modifies this`displayName, this`calls
      ensures calls == old(calls) + [UpdateProfile(name)]
      ensures r == if ok then Done else Failed
      ensures displayName == if ok then Some(name) else old(displayName)
    {
      calls := calls + [UpdateProfile(name)];
      if !ok {
        return Failed;
      }
      displayName := Some(name);
      r := Done;
    }

    /** `reauthenticateWithCredential(user, EmailAuthProvider.credential(email, password))`. */
    method Reauth(email: string, password: string, ok: bool) returns (r: Outcome)
      modifies this`calls
      ensures calls == old(calls) + [Reauthenticate(email, password)]
      ensures r == if ok then Done else Failed
    {
      calls := calls + [Reauthenticate(email, password)];
      r := if ok then Done else Failed;
    }

    /** `updatePassword(user, newPassword)`. */
    method SetPassword(newPassword: string, ok: bool) returns (r: Outcome)
      modifies this`calls
      ensures calls == old(calls) + [UpdatePassword(newPassword)]
      ensures r == if ok then Done else Failed
    {
      calls := calls + [UpdatePassword(newPassword)];
      r := if ok then Done else Failed;
    }

    /** `deleteUser(user)`: removes the identity itself. */
    method Delete(ok: bool) returns (r: Outcome)
      modifies this`deleted, this`calls
      ensures calls == old(calls) + [DeleteUser]
      ensures r == if ok then Done else Failed
      ensures deleted == (old(deleted) || ok)
    {
      calls := calls + [DeleteUser];
      if !ok {
        return Failed;
      }
      deleted := true;
      r := Done;
    }

    /** `linkWithPopup(user, new GoogleAuthProvider())`. */
    method LinkGoogle(ok: bool) returns (r: Outcome)
      modifies this`providerIds, this`calls
      ensures calls == old(calls) + [LinkWithPopup(GoogleProviderId)]
      ensures r == if ok then Done else Failed
      ensures providerIds == if ok then old(providerIds) + [GoogleProviderId] else old(providerIds)
    {
      calls := calls + [LinkWithPopup(GoogleProviderId)];
      if !ok {
        return Failed;
      }
      providerIds := providerIds + [GoogleProviderId];
      r := Done;
    }

    /** `unlink(user, providerId)`. */
    method UnlinkProvider(providerId: string, ok: bool) returns (r: Outcome)
      modifies this`providerIds, this`calls
      ensures calls == old(calls) + [Unlink(providerId)]
      ensures r == if ok then Done else Failed
      ensures providerIds == if ok then WithoutProvider(old(providerIds), providerId) else old(providerIds)
    {
      calls := calls + [Unlink(providerId)];
      if !ok {
        return Failed;
      }
      providerIds := WithoutProvider(providerIds, providerId);
      r := Done;
    }
  }
}
