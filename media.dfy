/** The local-media store: the list of captured media streams, identified by uuid. */
module MediaStoreModel {
  import opened Wrappers
  import Seqs

  type Uuid = string

  datatype Facing = User | Environment

  /** One captured medium. `stream` is the identity of the browser's stream object;
      `mediaType` stands for the shared media-type tag. */
  datatype Media = Media(
    mediaType: string,
    uuid: Uuid,
    stream: nat,
    device: Option<string>,
    width: Option<int>,
    height: Option<int>,
    framerate: Option<int>,
    facing: Option<Facing>,
    captureAudio: Option<bool>)

  /** The list `remove(uuid)` publishes: `filter(v => v.uuid !== uuid)`. */
  function WithoutUuid(ms: seq<Media>, uuid: Uuid): seq<Media> {
    Seqs.Filter(ms, (m: Media) => m.uuid != uuid)
  }

  /** After removal no element carries `uuid`, and exactly the elements with another uuid remain. */
  lemma RemoveDropsExactlyUuid(ms: seq<Media>, uuid: Uuid)
    ensures forall m :: m in WithoutUuid(ms, uuid) ==> m.uuid != uuid
    ensures forall m :: m in WithoutUuid(ms, uuid) <==> m in ms && m.uuid != uuid
  {
    forall m ensures m in WithoutUuid(ms, uuid) <==> m in ms && m.uuid != uuid {
      Seqs.FilterMembership(ms, (m: Media) => m.uuid != uuid, m);
    }
  }

  /** Removal keeps the relative order of what remains: it splits over any cut of the list. */
  lemma RemoveKeepsOrder(a: seq<Media>, b: seq<Media>, uuid: Uuid)
    ensures WithoutUuid(a + b, uuid) == WithoutUuid(a, uuid) + WithoutUuid(b, uuid)
  {
    Seqs.FilterAppend(a, b, (m: Media) => m.uuid != uuid);
  }

  /** An element whose uuid differs keeps every one of its occurrences. */
  lemma RemoveKeepsOccurrences(ms: seq<Media>, uuid: Uuid, m: Media)
    requires m.uuid != uuid
    ensures multiset(WithoutUuid(ms, uuid))[m] == multiset(ms)[m]
  {
    Seqs.FilterCount(ms, (m: Media) => m.uuid != uuid, m);
  }

  /** Removing a uuid nobody has leaves the list as it was. */
  lemma RemoveAbsentIsNoOp(ms: seq<Media>, uuid: Uuid)
    requires forall m :: m in ms ==> m.uuid != uuid
    ensures WithoutUuid(ms, uuid) == ms
  {
    Seqs.FilterKeepsAll(ms, (m: Media) => m.uuid != uuid);
  }

  class MediaStore {
    /** The store's current value, starting as the empty list. */
    var media: seq<Media>

    constructor ()
      ensures media == []
    {
      media := [];
    }

    /** Appends `m` in place as the last element. */
    method Push(m: Media)
      modifies this
      ensures media == old(media) + [m]
      ensures media[..|old(media)|] == old(media)
    {
      media := media + [m];
    }

    /** Publishes the list without the elements whose uuid is `uuid`. */
    method Remove(uuid: Uuid)
      modifies this
      ensures media == WithoutUuid(old(media), uuid)
      ensures forall m :: m in media <==> m in old(media) && m.uuid != uuid
    {
      RemoveDropsExactlyUuid(media, uuid);
      media := WithoutUuid(media, uuid);
    }

    /** Re-publishes the current value; the list is unchanged. */
    method Refresh()
      modifies this
      ensures media == old(media)
    {
      media := media;
    }
  }
}
