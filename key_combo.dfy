/** Realm-membership predicates: look a row up, then compare its realm. A
    missing row never belongs. */
module KeyComboValidator {
  import opened Base
  import opened Entities
  import opened Store

  predicate UniqueClientIds(clients: seq<Client>) {
    forall i, j :: 0 <= i < j < |clients| ==> clients[i].id != clients[j].id
  }

  predicate UniqueUserIds(users: seq<User>) {
    forall i, j :: 0 <= i < j < |users| ==> users[i].id != users[j].id
  }

  /** `is_client_belongs_to_realm` */
  function IsClientBelongsToRealm(clients: seq<Client>, clientId: Uuid, realmId: Uuid): (b: bool)
    ensures b ==> exists k :: 0 <= k < |clients| && clients[k].id == clientId && clients[k].realmId == realmId
    ensures (forall k :: 0 <= k < |clients| ==> clients[k].id != clientId) ==> !b
    ensures UniqueClientIds(clients) ==>
      (b <==> exists k :: 0 <= k < |clients| && clients[k].id == clientId && clients[k].realmId == realmId)
  {
    var client := ClientById(clients, clientId);
    client.Some? && client.value.realmId == realmId
  }

  /** `is_resource_belongs_to_realm`: the resource's group key is compared with
      the realm id, as written. */
  function IsResourceBelongsToRealm(resources: seq<Resource>, realmId: Uuid, resourceId: Uuid): (b: bool)
    ensures b ==> exists k :: 0 <= k < |resources| && resources[k].id == resourceId && resources[k].groupKey == realmId
    ensures (forall k :: 0 <= k < |resources| ==> resources[k].id != resourceId) ==> !b
    ensures UniqueIds(resources) ==>
      (b <==> exists k :: 0 <= k < |resources| && resources[k].id == resourceId && resources[k].groupKey == realmId)
  {
    var resource := FindById(resources, resourceId);
    resource.Some? && resource.value.groupKey == realmId
  }

  /** `is_user_belongs_to_realm`: only an active (unlocked) user belongs. */
  function IsUserBelongsToRealm(users: seq<User>, userId: Uuid, realmId: Uuid): (b: bool)
    ensures b ==> exists k :: 0 <= k < |users| && users[k].id == userId && Unlocked(users[k].lockedAt) && users[k].realmId == realmId
    ensures (forall k :: 0 <= k < |users| && users[k].id == userId ==> !Unlocked(users[k].lockedAt)) ==> !b
    ensures UniqueUserIds(users) ==>
      (b <==> exists k :: 0 <= k < |users| && users[k].id == userId && Unlocked(users[k].lockedAt) && users[k].realmId == realmId)
  {
    var user := ActiveUserById(users, userId);
    user.Some? && user.value.realmId == realmId
  }

  /** `is_resource_group_belongs_to_realm`: the first resource carrying the key
      decides, through its user, who must be active and in the realm. */
  function IsResourceGroupBelongsToRealm(resources: seq<Resource>, users: seq<User>, groupKey: Uuid, realmId: Uuid): (b: bool)
    ensures (forall k :: 0 <= k < |resources| ==> resources[k].groupKey != groupKey) ==> !b
    ensures b ==> exists k, u :: 0 <= k < |resources| && 0 <= u < |users| && resources[k].groupKey == groupKey &&
                                 resources[k].userId == Some(users[u].id) && Unlocked(users[u].lockedAt) && users[u].realmId == realmId
  {
    var resource := FirstWhere(resources, (r: Resource) => r.groupKey == groupKey);
    if resource.None? || resource.value.userId.None? then false
    else
      var user := ActiveUserById(users, resource.value.userId.value);
      user.Some? && user.value.realmId == realmId
  }

  /** The group check looks at the first carrier of the key only: when that
      resource's user is locked, the answer is false even if a later resource
      with the same key belongs to an active user of the realm. */
  lemma GroupCheckUsesFirstCarrier(resources: seq<Resource>, users: seq<User>, groupKey: Uuid, realmId: Uuid, j: nat)
    requires j < |resources| && resources[j].groupKey == groupKey
    requires forall k :: 0 <= k < j ==> resources[k].groupKey != groupKey
    ensures IsResourceGroupBelongsToRealm(resources, users, groupKey, realmId) ==
      (resources[j].userId.Some? && IsUserBelongsToRealm(users, resources[j].userId.value, realmId))
  {
    var first := FirstWhere(resources, (r: Resource) => r.groupKey == groupKey);
    assert first == Some(resources[j]);
  }
}
