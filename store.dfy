/**
 * The document store: the Subscriber collection, keyed by (email, listId)
 * as the import's upsert uses it, and the Campaign collection. Document ids
 * are allocated from a counter, so they are distinct.
 */
module Store {
  import opened Wrappers
  import opened SubscriberModel
  import opened CampaignModel

  /** The upsert key of a Subscriber. */
  datatype Key = Key(email: string, listId: string)

  /** The Subscriber collection and the next fresh document id. */
  datatype SubscriberTable = SubscriberTable(docs: map<Key, Subscriber>, nextId: nat) {

    /** Each document sits under its own email and listId, and ids are fresh and distinct. */
    ghost predicate Valid()
    {
      && (forall k | k in docs :: docs[k].email == k.email && docs[k].listId == k.listId && docs[k].id < nextId)
      && (forall k, k' | k in docs && k' in docs && k != k' :: docs[k].id != docs[k'].id)
    }

    /**
     * `findOneAndUpdate({email, listId}, {firstName, lastName, status: 'subscribed',
     * subscriptionDate}, {upsert: true})`: updates the one document under the
     * key, keeping its id, or inserts one with a fresh id; no other document changes.
     */
    function Upsert(email: string, listId: string, firstName: string, lastName: string, now: int): (t: SubscriberTable)
      ensures t.docs.Keys == docs.Keys + {Key(email, listId)}
      ensures forall k | k in docs && k != Key(email, listId) :: t.docs[k] == docs[k]
      ensures var d := t.docs[Key(email, listId)];
        && d.firstName == firstName && d.lastName == lastName
        && d.status == Subscribed && d.subscriptionDate == now
      ensures Valid() ==> t.docs[Key(email, listId)].email == email && t.docs[Key(email, listId)].listId == listId
      ensures Key(email, listId) in docs ==> t.docs[Key(email, listId)].id == docs[Key(email, listId)].id && t.nextId == nextId
      ensures Key(email, listId) !in docs ==> t.docs[Key(email, listId)].id == nextId && t.nextId == nextId + 1
    {
      var key := Key(email, listId);
      if key in docs then
        SubscriberTable(
          docs[key := docs[key].(firstName := firstName, lastName := lastName, status := Subscribed, subscriptionDate := now)],
          nextId)
      else
        SubscriberTable(docs[key := Subscriber(nextId, email, firstName, lastName, listId, now, Subscribed)], nextId + 1)
    }

    /** An upsert keeps every document under its own key, with distinct ids below the next fresh one. */
    lemma UpsertValid(email: string, listId: string, firstName: string, lastName: string, now: int)
      requires Valid()
      ensures Upsert(email, listId, firstName, lastName, now).Valid()
    {
      var key := Key(email, listId);
      var t := Upsert(email, listId, firstName, lastName, now);
      if key in docs {
        assert forall k | k in t.docs :: t.docs[k].id == docs[k].id && t.docs[k].email == docs[k].email && t.docs[k].listId == docs[k].listId;
      } else {
        assert forall k | k in t.docs && k != key :: t.docs[k] == docs[k] && t.docs[k].id < nextId;
      }
    }

    /** The keys of the documents whose listId is `listId` (`Subscriber.find({listId})`). */
    function KeysOfList(listId: string): set<Key>
    {
      set k | k in docs && k.listId == listId
    }

    function IdsOfList(listId: string): set<nat>
    {
      set k | k in docs && k.listId == listId :: docs[k].id
    }
  }

  /** `ids` lists the ids of the documents of `listId`, each exactly once, in some order. */
  ghost predicate IsSnapshot(ids: seq<nat>, t: SubscriberTable, listId: string)
  {
    && (forall j | 0 <= j < |ids| :: ids[j] in t.IdsOfList(listId))
    && (forall k | k in t.KeysOfList(listId) :: t.docs[k].id in ids)
    && (forall i, j | 0 <= i < j < |ids| :: ids[i] != ids[j])
    && |ids| == |t.KeysOfList(listId)|
  }

  /** Distinct keys of the list, covering it, give a snapshot of their ids. */
  lemma KeysToSnapshot(t: SubscriberTable, listId: string, keys: seq<Key>, ids: seq<nat>)
    requires t.Valid()
    requires |keys| == |ids| == |t.KeysOfList(listId)|
    requires forall j | 0 <= j < |keys| :: keys[j] in t.KeysOfList(listId) && ids[j] == t.docs[keys[j]].id
    requires forall k | k in t.KeysOfList(listId) :: k in keys
    requires forall i, j | 0 <= i < j < |keys| :: keys[i] != keys[j]
    ensures IsSnapshot(ids, t, listId)
  {
    forall k | k in t.KeysOfList(listId) ensures t.docs[k].id in ids {
      var j :| 0 <= j < |keys| && keys[j] == k;
      assert ids[j] == t.docs[k].id;
    }
  }

  class Database {
    var subscribers: SubscriberTable
    /** The Campaign collection; a campaign's id is its position. */
    var campaigns: seq<Campaign>

    ghost predicate Valid()
      reads this
    {
      subscribers.Valid()
    }

    constructor ()
      ensures Valid() && subscribers == SubscriberTable(map[], 0) && campaigns == []
    {
      subscribers := SubscriberTable(map[], 0);
      campaigns := [];
    }

    method UpsertSubscriber(email: string, listId: string, firstName: string, lastName: string, now: int)
      requires Valid()
      modifies this
      ensures Valid()
      ensures subscribers == old(subscribers).Upsert(email, listId, firstName, lastName, now)
      ensures campaigns == old(campaigns)
    {
      subscribers.UpsertValid(email, listId, firstName, lastName, now);
      subscribers := subscribers.Upsert(email, listId, firstName, lastName, now);
    }

    /**
     * `Subscriber.find({listId}).map(sub => sub._id)`: the store promises no
     * order, so the keys are taken in whatever order the choice yields.
     */
    method FindSubscriberIds(listId: string) returns (ids: seq<nat>)
      requires Valid()
      ensures IsSnapshot(ids, subscribers, listId)
    {
      var t := subscribers;
      var all := t.KeysOfList(listId);
      var remaining := all;
      ghost var keys: seq<Key> := [];
      ids := [];
      while remaining != {}
        invariant remaining <= all
        invariant |keys| == |ids| && |keys| + |remaining| == |all|
        invariant forall j | 0 <= j < |keys| :: keys[j] in all && keys[j] !in remaining
        invariant forall j | 0 <= j < |keys| :: ids[j] == t.docs[keys[j]].id
        invariant forall k | k in all && k !in remaining :: k in keys
        invariant forall i, j | 0 <= i < j < |keys| :: keys[i] != keys[j]
        decreases remaining
      {
        var k :| k in remaining;
        ids := ids + [t.docs[k].id];
        keys := keys + [k];
        remaining := remaining - {k};
      }
      KeysToSnapshot(t, listId, keys, ids);
    }

    method SaveCampaign(c: Campaign) returns (id: nat)
      modifies this
      ensures campaigns == old(campaigns) + [c] && id == |old(campaigns)|
      ensures subscribers == old(subscribers)
    {
      id := |campaigns|;
      campaigns := campaigns + [c];
    }

    /** `Campaign.findById(id)`: null when no campaign has that id. */
    function FindCampaign(id: nat): (r: Option<Campaign>)
      reads this
      ensures r.Some? <==> id < |campaigns|
      ensures r.Some? ==> r.value == campaigns[id]
    {
      if id < |campaigns| then Some(campaigns[id]) else None
    }
  }
}
