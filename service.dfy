/**
 * `UserProfileService`: reading a profile, and the update reconciler that
 * checks a request, picks the merge rule its command names, merges into a
 * copy of the stored properties and writes the result back to the store.
 */
module ProfileService {
  import opened Wrappers
  import opened Commands
  import opened Profiles
  import opened Merge

  /** The stored profiles, by user id. */
  type Store = map<UserId, UserProfile>

  /** One call the service makes on the store, in the order it makes them. */
  datatype Access = Read(id: UserId) | Write(profile: UserProfile)

  /** What `get` answers for a store: the profile, or `EntityNotFoundException`. */
  function Lookup(profiles: Store, userId: UserId): (r: Result<UserProfile, ServiceError>)
    ensures r.Success? <==> userId in profiles
    ensures r.Success? ==> r.value == profiles[userId] && r.value in profiles.Values
    ensures r.Failure? ==> r.error == EntityNotFound
  {
    if userId in profiles then Success(profiles[userId]) else Failure(EntityNotFound)
  }

  /**
   * `UserProfileDao`: a map from user id to profile. The ghost `trace`
   * records every call made on it, so that the service's contracts can say
   * which reads and writes an update performs.
   */
  class UserProfileDao {
    var profiles: Store
    ghost var trace: seq<Access>

    constructor (initial: Store)
      ensures profiles == initial && trace == []
    {
      profiles := initial;
      trace := [];
    }

    method Get(userId: UserId) returns (r: Option<UserProfile>)
      modifies this`trace
      ensures r.Some? <==> userId in profiles
      ensures r.Some? ==> r.value == profiles[userId]
      ensures trace == old(trace) + [Read(userId)]
    {
      trace := trace + [Read(userId)];
      if userId in profiles {
        r := Some(profiles[userId]);
      } else {
        r := None;
      }
    }

    /** Stores a profile under its own user id, replacing what was there. */
    method Put(profile: UserProfile)
      modifies this
      ensures profiles == old(profiles)[profile.userId := profile]
      ensures trace == old(trace) + [Write(profile)]
    {
      trace := trace + [Write(profile)];
      profiles := profiles[profile.userId := profile];
    }
  }

  /** `validateUserId`: the path id and the id in the command must be equal; `null` never is. */
  function ValidateUserId(userId: UserId, commandUserId: Option<UserId>): (r: Option<ServiceError>)
    ensures r.None? <==> commandUserId == Some(userId)
    ensures r.Some? ==> r.value == InvalidUserId
  {
    if commandUserId == Some(userId) then None else Some(InvalidUserId)
  }

  /** `getUpdateCommand`: the command the token names, or `InvalidUpdateCommandException`. */
  function GetUpdateCommand(token: Option<string>): (r: Result<Command, ServiceError>)
    ensures r.Success? ==> token == Some(r.value.GetType())
    ensures r.Failure? <==> token !in {Some("collect"), Some("increment"), Some("replace")}
    ensures r.Failure? ==> r.error == InvalidUpdateCommand
  {
    match FromType(token)
    case Some(command) => Success(command)
    case None => Failure(InvalidUpdateCommand)
  }

  /** The merge rule of a command, applied to the stored properties. */
  function MergeFor(command: Command, current: PropertyMap, properties: PropertyMap): Result<PropertyMap, ServiceError> {
    match command
    case COLLECT => CollectMerge(current, properties)
    case INCREMENT => IncrementMerge(current, properties)
    case REPLACE => ReplaceMerge(current, properties)
  }

  /**
   * The property map `update` writes for a request against a store, or the
   * exception it throws: first the id check, then the command token, then
   * the incoming map as it is for a user with no profile, or the command's
   * merge into the stored properties.
   */
  function Reconcile(profiles: Store, userId: UserId, commandUserId: Option<UserId>,
                     properties: PropertyMap, token: Option<string>): Result<PropertyMap, ServiceError>
  {
    match ValidateUserId(userId, commandUserId)
    case Some(e) => Failure(e)
    case None =>
      match GetUpdateCommand(token)
      case Failure(e) => Failure(e)
      case Success(command) =>
        if userId !in profiles then Success(properties)
        else MergeFor(command, profiles[userId].properties, properties)
  }

  /**
   * The calls `update` makes on the store: none when the request is
   * rejected; otherwise the first read, then (for a stored profile) the
   * read of `loadProperties`, the write unless the merge fails, and the
   * final read of `get`.
   */
  function Accesses(profiles: Store, userId: UserId, commandUserId: Option<UserId>,
                    properties: PropertyMap, token: Option<string>, now: Instant): seq<Access>
  {
    if ValidateUserId(userId, commandUserId).Some? || GetUpdateCommand(token).Failure? then []
    else
      (if userId in profiles then [Read(userId), Read(userId)] else [Read(userId)])
      + match Reconcile(profiles, userId, commandUserId, properties, token)
        case Success(written) => [Write(UserProfile(userId, now, written)), Read(userId)]
        case Failure(_) => []
  }

  /**
   * An update fails exactly when the ids differ, the token names no
   * command, or an increment into a stored profile meets a value that is
   * not an `int` numeral; list-append and overwrite never fail.
   */
  lemma ReconcileFailsIff(profiles: Store, userId: UserId, commandUserId: Option<UserId>,
                          properties: PropertyMap, token: Option<string>)
    ensures Reconcile(profiles, userId, commandUserId, properties, token).Failure? <==>
              || commandUserId != Some(userId)
              || token !in {Some("collect"), Some("increment"), Some("replace")}
              || (userId in profiles && token == Some("increment")
                  && IncrementMerge(profiles[userId].properties, properties).Failure?)
  {
    if commandUserId == Some(userId) && GetUpdateCommand(token).Success? && userId in profiles {
      var command := GetUpdateCommand(token).value;
      CollectReplaceSucceed(profiles[userId].properties, properties);
      TokensDistinct(command, INCREMENT);
      assert command == INCREMENT <==> token == Some("increment");
    }
  }

  /**
   * The checks come first and in order: a mismatched id is reported even
   * when the token is bad too, and a rejected request makes no call on the
   * store at all.
   */
  lemma RejectedBeforeStore(profiles: Store, userId: UserId, commandUserId: Option<UserId>,
                            properties: PropertyMap, token: Option<string>, now: Instant)
    requires commandUserId != Some(userId) || token !in {Some("collect"), Some("increment"), Some("replace")}
    ensures Reconcile(profiles, userId, commandUserId, properties, token) ==
              Failure(if commandUserId != Some(userId) then InvalidUserId else InvalidUpdateCommand)
    ensures Accesses(profiles, userId, commandUserId, properties, token, now) == []
  {
  }

  /** A user with no profile gets the incoming map exactly, whatever the command. */
  lemma NewProfileStoresIncoming(profiles: Store, userId: UserId, properties: PropertyMap, token: Option<string>, now: Instant)
    requires userId !in profiles && token in {Some("collect"), Some("increment"), Some("replace")}
    ensures Reconcile(profiles, userId, Some(userId), properties, token) == Success(properties)
    ensures Accesses(profiles, userId, Some(userId), properties, token, now) ==
              [Read(userId), Write(UserProfile(userId, now, properties)), Read(userId)]
  {
  }

  /**
   * Merging into a stored profile keeps every stored key, adds every
   * incoming one, and leaves the stored keys that were not sent unchanged.
   */
  lemma ReconcileKeepsOtherKeys(profiles: Store, userId: UserId, properties: PropertyMap, token: Option<string>)
    requires userId in profiles
    requires Reconcile(profiles, userId, Some(userId), properties, token).Success?
    ensures var written := Reconcile(profiles, userId, Some(userId), properties, token).value;
            var stored := profiles[userId].properties;
            && written.Keys == stored.Keys + properties.Keys
            && forall k | k in stored && k !in properties :: written[k] == stored[k]
  {
    var stored := profiles[userId].properties;
    match GetUpdateCommand(token).value
    case COLLECT => MergeOnFrame(stored, properties, CollectRule);
    case INCREMENT => MergeOnFrame(stored, properties, IncrementRule);
    case REPLACE => MergeOnFrame(stored, properties, ReplaceRule);
  }

  class UserProfileService {
    const dao: UserProfileDao

    constructor (dao: UserProfileDao)
      ensures this.dao == dao
    {
      this.dao := dao;
    }

    /** `get`: the stored profile, or `EntityNotFoundException`. */
    method Get(userId: UserId) returns (r: Result<UserProfile, ServiceError>)
      modifies dao`trace
      ensures r == Lookup(dao.profiles, userId)
      ensures dao.trace == old(dao.trace) + [Read(userId)]
    {
      var profile := dao.Get(userId);
      if profile.None? {
        return Failure(EntityNotFound);
      }
      r := Success(profile.value);
    }

    /**
     * `update`: on success the store holds, under `userId`, a profile
     * stamped `now` with the reconciled properties, and that profile is
     * returned; on failure the store is as it was.
     */
    method Update(userId: UserId, commandUserId: Option<UserId>, properties: PropertyMap,
                  token: Option<string>, now: Instant) returns (r: Result<UserProfile, ServiceError>)
      modifies dao
      ensures match Reconcile(old(dao.profiles), userId, commandUserId, properties, token)
              case Failure(e) => r == Failure(e) && dao.profiles == old(dao.profiles)
              case Success(written) =>
                && dao.profiles == old(dao.profiles)[userId := UserProfile(userId, now, written)]
                && r == Success(UserProfile(userId, now, written))
      ensures r.Success? ==> r == Lookup(dao.profiles, userId)
      ensures dao.trace == old(dao.trace) + Accesses(old(dao.profiles), userId, commandUserId, properties, token, now)
    {
      var invalid := ValidateUserId(userId, commandUserId);
      if invalid.Some? {
        return Failure(invalid.value);
      }
      var command := GetUpdateCommand(token);
      if command.Failure? {
        return Failure(command.error);
      }
      ghost var stored := dao.profiles;
      ghost var before := dao.trace;
      ghost var expected := Reconcile(stored, userId, commandUserId, properties, token);
      assert expected == if userId in stored then MergeFor(command.value, stored[userId].properties, properties)
                         else Success(properties);
      var profile := dao.Get(userId);
      ghost var calls := [Read(userId)];
      var outcome: Result<(), ServiceError>;
      if profile.None? {
        PersistUserProfile(userId, properties, now);
        calls := calls + [Write(UserProfile(userId, now, properties))];
        outcome := Success(());
      } else {
        outcome := ApplyCommand(command.value, userId, properties, now);
        calls := calls + [Read(userId)];
        if expected.Success? {
          calls := calls + [Write(UserProfile(userId, now, expected.value))];
        }
      }
      assert dao.trace == before + calls;
      if outcome.Failure? {
        return Failure(outcome.error);
      }
      r := Get(userId);
      calls := calls + [Read(userId)];
      assert dao.trace == before + calls;
      assert calls == Accesses(stored, userId, commandUserId, properties, token, now);
    }

    /** The `switch` of `update`: the merge method the command names, on a stored profile. */
    method ApplyCommand(command: Command, userId: UserId, properties: PropertyMap, now: Instant)
      returns (r: Result<(), ServiceError>)
      modifies dao
      ensures userId !in old(dao.profiles) ==>
                && r == Failure(EntityNotFound) && dao.profiles == old(dao.profiles)
                && dao.trace == old(dao.trace) + [Read(userId)]
      ensures userId in old(dao.profiles) ==>
                match MergeFor(command, old(dao.profiles)[userId].properties, properties)
                case Failure(e) =>
                  && r == Failure(e) && dao.profiles == old(dao.profiles)
                  && dao.trace == old(dao.trace) + [Read(userId)]
                case Success(merged) =>
                  && r == Success(())
                  && dao.profiles == old(dao.profiles)[userId := UserProfile(userId, now, merged)]
                  && dao.trace == old(dao.trace) + [Read(userId), Write(UserProfile(userId, now, merged))]
    {
      if userId in dao.profiles {
        CollectReplaceSucceed(dao.profiles[userId].properties, properties);
      }
      match command {
        case COLLECT => r := AddValueToList(userId, properties, now);
        case INCREMENT => r := IncrementValue(userId, properties, now);
        case REPLACE => r := ReplaceValue(userId, properties, now);
      }
    }

    /** `persistUserProfile`: one write of a fresh profile stamped `now`. */
    method PersistUserProfile(userId: UserId, properties: PropertyMap, now: Instant)
      modifies dao
      ensures dao.profiles == old(dao.profiles)[userId := UserProfile(userId, now, properties)]
      ensures dao.trace == old(dao.trace) + [Write(UserProfile(userId, now, properties))]
    {
      var userProfile := UserProfile(userId, now, properties);
      dao.Put(userProfile);
    }

    /** `loadProperties`: the stored properties, read through `get`. */
    method LoadProperties(userId: UserId) returns (r: Result<PropertyMap, ServiceError>)
      modifies dao`trace
      ensures userId in dao.profiles ==> r == Success(dao.profiles[userId].properties)
      ensures userId !in dao.profiles ==> r == Failure(EntityNotFound)
      ensures dao.trace == old(dao.trace) + [Read(userId)]
    {
      var userProfile := Get(userId);
      if userProfile.Failure? {
        return Failure(userProfile.error);
      }
      r := Success(userProfile.value.properties);
    }

    /** `addValueToList`: list-append into the stored properties, then one write. */
    method AddValueToList(userId: UserId, properties: PropertyMap, now: Instant) returns (r: Result<(), ServiceError>)
      modifies dao
      ensures userId !in old(dao.profiles) ==>
                && r == Failure(EntityNotFound) && dao.profiles == old(dao.profiles)
                && dao.trace == old(dao.trace) + [Read(userId)]
      ensures userId in old(dao.profiles) ==>
                var written := UserProfile(userId, now, CollectMerge(old(dao.profiles)[userId].properties, properties).value);
                && r == Success(())
                && dao.profiles == old(dao.profiles)[userId := written]
                && dao.trace == old(dao.trace) + [Read(userId), Write(written)]
    {
      var currentProperties := LoadProperties(userId);
      if currentProperties.Failure? {
        return Failure(currentProperties.error);
      }
      var merged := CollectInto(currentProperties.value, properties);
      PersistUserProfile(userId, merged, now);
      r := Success(());
    }

    /**
     * `incrementValue`: `int` addition into the stored properties, then one
     * write; `InvalidPropertyException`, and no write, when some value is
     * not an `int` numeral.
     */
    method IncrementValue(userId: UserId, properties: PropertyMap, now: Instant) returns (r: Result<(), ServiceError>)
      modifies dao
      ensures userId !in old(dao.profiles) ==>
                && r == Failure(EntityNotFound) && dao.profiles == old(dao.profiles)
                && dao.trace == old(dao.trace) + [Read(userId)]
      ensures userId in old(dao.profiles) ==>
                match IncrementMerge(old(dao.profiles)[userId].properties, properties)
                case Failure(e) =>
                  && r == Failure(e) && dao.profiles == old(dao.profiles)
                  && dao.trace == old(dao.trace) + [Read(userId)]
                case Success(merged) =>
                  && r == Success(())
                  && dao.profiles == old(dao.profiles)[userId := UserProfile(userId, now, merged)]
                  && dao.trace == old(dao.trace) + [Read(userId), Write(UserProfile(userId, now, merged))]
    {
      var currentProperties := LoadProperties(userId);
      if currentProperties.Failure? {
        return Failure(currentProperties.error);
      }
      var merged := IncrementInto(currentProperties.value, properties);
      if merged.Failure? {
        return Failure(merged.error);
      }
      PersistUserProfile(userId, merged.value, now);
      r := Success(());
    }

    /** `replaceValue`: overwrite into the stored properties, then one write. */
    method ReplaceValue(userId: UserId, properties: PropertyMap, now: Instant) returns (r: Result<(), ServiceError>)
      modifies dao
      ensures userId !in old(dao.profiles) ==>
                && r == Failure(EntityNotFound) && dao.profiles == old(dao.profiles)
                && dao.trace == old(dao.trace) + [Read(userId)]
      ensures userId in old(dao.profiles) ==>
                var written := UserProfile(userId, now, ReplaceMerge(old(dao.profiles)[userId].properties, properties).value);
                && r == Success(())
                && dao.profiles == old(dao.profiles)[userId := written]
                && dao.trace == old(dao.trace) + [Read(userId), Write(written)]
    {
      var currentProperties := LoadProperties(userId);
      if currentProperties.Failure? {
        return Failure(currentProperties.error);
      }
      var merged := ReplaceInto(currentProperties.value, properties);
      PersistUserProfile(userId, merged, now);
      r := Success(());
    }
  }
}
