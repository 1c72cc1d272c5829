/**
 * The older forwarding policy built by predicateBuilder in
 * cmd/delivery/main.go: friend-location events only, no "private" or
 * "traveling" special case, and an absent location passes.
 */
module Delivery {
  import opened Wrappers
  import opened Payload
  import InstanceOwner
  import Event

  /** The closure returned by predicateBuilder(allowUserID, allowInstanceOwnerID), applied to p. */
  function Forward(allowUserID: string, allowInstanceOwnerID: seq<string>, p: Payload): (forward: bool)
    ensures forward ==> GetString(p, Event.TypeKey) == Some("friend-location")
    ensures forward ==> Event.UserAllowed(allowUserID, p)
  {
    match GetString(p, Event.TypeKey)
    case None => false
    case Some(eventType) =>
      if eventType == "friend-location" then
        if !Event.UserAllowed(allowUserID, p) then false
        else
          match GetString(p, Event.LocationKey)
          case Some(instanceID) =>
            InstanceOwner.ParseInstanceOwner(instanceID) in allowInstanceOwnerID
          case None => true
      else false
  }

  /**
   * predicateBuilder: the policy as a predicate, ready to be put in a chain.
   * It forwards exactly the friend-location events whose user check passes
   * and whose location, when it is a string, has an allowed owner.
   */
  function PredicateBuilder(allowUserID: string, allowInstanceOwnerID: seq<string>): (pred: Payload -> bool)
    ensures forall p :: pred(p) <==>
      && GetString(p, Event.TypeKey) == Some("friend-location")
      && Event.UserAllowed(allowUserID, p)
      && (GetString(p, Event.LocationKey).Some? ==>
            InstanceOwner.ParseInstanceOwner(GetString(p, Event.LocationKey).value) in allowInstanceOwnerID)
  {
    p => Forward(allowUserID, allowInstanceOwnerID, p)
  }

  /**
   * The complete rule: forwarded iff the type is friend-location, the user
   * check passes, and the location is absent or a string whose owner is allowed.
   */
  lemma ForwardRule(allowUserID: string, allowInstanceOwnerID: seq<string>, p: Payload)
    ensures Forward(allowUserID, allowInstanceOwnerID, p) <==>
      && GetString(p, Event.TypeKey) == Some("friend-location")
      && Event.UserAllowed(allowUserID, p)
      && (GetString(p, Event.LocationKey).Some? ==>
            InstanceOwner.ParseInstanceOwner(GetString(p, Event.LocationKey).value) in allowInstanceOwnerID)
  {
  }

  /** friend-location: a string user id other than the allowed one rejects the event. */
  lemma OtherUserRejected(allowUserID: string, allowInstanceOwnerID: seq<string>, p: Payload)
    requires GetString(p, Event.UserIdKey).Some? && GetString(p, Event.UserIdKey).value != allowUserID
    ensures !Forward(allowUserID, allowInstanceOwnerID, p)
  {
  }

  /** friend-location with no string location passes once the user check passes. */
  lemma MissingLocationForwarded(allowUserID: string, allowInstanceOwnerID: seq<string>, p: Payload)
    requires GetString(p, Event.TypeKey) == Some("friend-location") && Event.UserAllowed(allowUserID, p)
    requires GetString(p, Event.LocationKey).None?
    ensures Forward(allowUserID, allowInstanceOwnerID, p)
  {
  }

  /**
   * This version has no "private" sentinel: the location "private" has
   * owner "" and so passes only when "" is on the allow list.
   */
  lemma PrivateLocationNeedsEmptyOwner(allowUserID: string, allowInstanceOwnerID: seq<string>, p: Payload)
    requires GetString(p, Event.TypeKey) == Some("friend-location") && Event.UserAllowed(allowUserID, p)
    requires GetString(p, Event.LocationKey) == Some("private")
    ensures Forward(allowUserID, allowInstanceOwnerID, p) <==> "" in allowInstanceOwnerID
  {
    InstanceOwner.PrivateSentinelHasNoOwner("private");
  }

  /**
   * The two versions differ exactly on friend-location events: for any
   * other event type they agree except that the newer one also forwards
   * matching friend-offline events.
   */
  lemma OlderPolicyIgnoresFriendOffline(allowUserID: string, allowInstanceOwnerID: seq<string>, p: Payload)
    requires GetString(p, Event.TypeKey) != Some("friend-location")
    ensures !Forward(allowUserID, allowInstanceOwnerID, p)
    ensures Event.Forward(allowUserID, allowInstanceOwnerID, p) <==>
              GetString(p, Event.TypeKey) == Some("friend-offline")
              && GetString(p, Event.OfflineUserIdKey) == Some(allowUserID)
  {
  }
}
