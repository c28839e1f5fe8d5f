/** The file-transfer store: files being assembled, pending sends and pending receives. */
module FileStoreModel {
  import opened Wrappers
  import Seqs

  type Uuid = string
  type PeerId = string

  /** A file exchanged between peers. Only `uuid` matters to the store; `details` stands for
      the rest of the shared file record, which the store never inspects. */
  datatype PeerFile = PeerFile(uuid: Uuid, details: string)

  /** The announcement of a file to be received; like PeerFile, only `uuid` is inspected. */
  datatype PeerFileInfo = PeerFileInfo(uuid: Uuid, details: string)

  /** 'pending' | 'sending' | 'sent' */
  datatype SendStatus = SendPending | Sending | Sent

  /** 'pending' | 'receiving' | 'received' */
  datatype ReceiveStatus = ReceivePending | Receiving | Received

  datatype PendingSend = PendingSend(peerID: PeerId, file: PeerFile, status: SendStatus)

  datatype PendingReceive = PendingReceive(
    peerID: PeerId, file: PeerFileInfo, receivedFile: Option<PeerFile>, status: ReceiveStatus)

  /** The store's record. A list is None when the record lacks that property, as the empty
      record does that `refresh` publishes for an undefined store. */
  datatype Files = Files(
    assembling: Option<seq<PeerFile>>,
    sending: Option<seq<PendingSend>>,
    receiving: Option<seq<PendingReceive>>)

  /** The store's initial record: three empty lists. */
  const Initial := Files(Some([]), Some([]), Some([]))

  // The three lists of a store value; None when the value is undefined or lacks the list.

  function AssemblingOf(v: Option<Files>): Option<seq<PeerFile>> {
    if v.Some? then v.value.assembling else None
  }

  function SendingOf(v: Option<Files>): Option<seq<PendingSend>> {
    if v.Some? then v.value.sending else None
  }

  function ReceivingOf(v: Option<Files>): Option<seq<PendingReceive>> {
    if v.Some? then v.value.receiving else None
  }

  // ----- matching -----

  /** A pending send is the one for `uuid` going to `peer`. */
  predicate SendIs(s: PendingSend, peer: PeerId, uuid: Uuid) {
    s.file.uuid == uuid && s.peerID == peer
  }

  /** A pending receive is the one for `uuid` coming from `peer`. */
  predicate ReceiveIs(r: PendingReceive, peer: PeerId, uuid: Uuid) {
    r.file.uuid == uuid && r.peerID == peer
  }

  predicate HasSend(list: seq<PendingSend>, peer: PeerId, uuid: Uuid) {
    exists j :: 0 <= j < |list| && SendIs(list[j], peer, uuid)
  }

  /** Receives are deduplicated on the uuid alone. */
  predicate HasReceiveUuid(list: seq<PendingReceive>, uuid: Uuid) {
    exists j :: 0 <= j < |list| && list[j].file.uuid == uuid
  }

  /** No two pending sends share both uuid and peer. */
  predicate UniqueSends(list: seq<PendingSend>) {
    forall i, j :: 0 <= i < j < |list| ==> !SendIs(list[j], list[i].peerID, list[i].file.uuid)
  }

  /** No two pending receives share a uuid. */
  predicate UniqueReceiveUuids(list: seq<PendingReceive>) {
    forall i, j :: 0 <= i < j < |list| ==> list[j].file.uuid != list[i].file.uuid
  }

  // ----- batch additions -----

  /** What the `addSending` loop leaves in the sending list: the batch appended in order, or
      None when it meets a send whose (uuid, peer) is already listed, at which point the updater
      returns nothing and the store becomes undefined. */
  function AppendSends(existing: seq<PendingSend>, sends: seq<PendingSend>): Option<seq<PendingSend>>
    decreases |sends|
  {
    if sends == [] then Some(existing)
    else if HasSend(existing, sends[0].peerID, sends[0].file.uuid) then None
    else AppendSends(existing + [sends[0]], sends[1..])
  }

  /** The same for `addReceiving`, whose duplicate test looks at the uuid only. */
  function AppendReceives(existing: seq<PendingReceive>, recvs: seq<PendingReceive>): Option<seq<PendingReceive>>
    decreases |recvs|
  {
    if recvs == [] then Some(existing)
    else if HasReceiveUuid(existing, recvs[0].file.uuid) then None
    else AppendReceives(existing + [recvs[0]], recvs[1..])
  }

  /** A batch of sends is accepted exactly when no send duplicates one listed before it
      (already in the store or earlier in the batch); then it is appended as given. */
  lemma {:induction false} AppendSendsOutcome(existing: seq<PendingSend>, sends: seq<PendingSend>)
    ensures AppendSends(existing, sends).Some? <==>
      forall i :: 0 <= i < |sends| ==> !HasSend(existing + sends[..i], sends[i].peerID, sends[i].file.uuid)
    ensures AppendSends(existing, sends).Some? ==> AppendSends(existing, sends).value == existing + sends
    decreases |sends|
  {
    if sends != [] {
      var e' := existing + [sends[0]];
      AppendSendsOutcome(e', sends[1..]);
      assert existing + sends[..0] == existing;
      forall i | 1 <= i < |sends|
        ensures e' + sends[1..][..i - 1] == existing + sends[..i]
        ensures sends[1..][i - 1] == sends[i]
      {
        assert sends[..i] == [sends[0]] + sends[1..][..i - 1];
      }
      assert e' + sends[1..] == existing + sends;
    }
  }

  /** The receiving counterpart: accepted exactly when no uuid repeats one listed before it,
      whatever the peers. */
  lemma {:induction false} AppendReceivesOutcome(existing: seq<PendingReceive>, recvs: seq<PendingReceive>)
    ensures AppendReceives(existing, recvs).Some? <==>
      forall i :: 0 <= i < |recvs| ==> !HasReceiveUuid(existing + recvs[..i], recvs[i].file.uuid)
    ensures AppendReceives(existing, recvs).Some? ==> AppendReceives(existing, recvs).value == existing + recvs
    decreases |recvs|
  {
    if recvs != [] {
      var e' := existing + [recvs[0]];
      AppendReceivesOutcome(e', recvs[1..]);
      assert existing + recvs[..0] == existing;
      forall i | 1 <= i < |recvs|
        ensures e' + recvs[1..][..i - 1] == existing + recvs[..i]
        ensures recvs[1..][i - 1] == recvs[i]
      {
        assert recvs[..i] == [recvs[0]] + recvs[1..][..i - 1];
      }
      assert e' + recvs[1..] == existing + recvs;
    }
  }

  /** Batch additions never list the same (uuid, peer) twice. */
  lemma {:induction false} AppendSendsKeepsUnique(existing: seq<PendingSend>, sends: seq<PendingSend>)
    requires UniqueSends(existing)
    requires AppendSends(existing, sends).Some?
    ensures UniqueSends(AppendSends(existing, sends).value)
    decreases |sends|
  {
    if sends != [] {
      var e' := existing + [sends[0]];
      forall i, j | 0 <= i < j < |e'|
        ensures !SendIs(e'[j], e'[i].peerID, e'[i].file.uuid)
      {
        if j == |existing| {
          assert e'[i] == existing[i] && e'[j] == sends[0];
          assert !SendIs(existing[i], sends[0].peerID, sends[0].file.uuid);
        }
      }
      AppendSendsKeepsUnique(e', sends[1..]);
    }
  }

  /** Batch additions never list the same uuid twice among receives. */
  lemma {:induction false} AppendReceivesKeepsUnique(existing: seq<PendingReceive>, recvs: seq<PendingReceive>)
    requires UniqueReceiveUuids(existing)
    requires AppendReceives(existing, recvs).Some?
    ensures UniqueReceiveUuids(AppendReceives(existing, recvs).value)
    decreases |recvs|
  {
    if recvs != [] {
      var e' := existing + [recvs[0]];
      forall i, j | 0 <= i < j < |e'|
        ensures e'[j].file.uuid != e'[i].file.uuid
      {
        if j == |existing| {
          assert e'[i] == existing[i];
        }
      }
      AppendReceivesKeepsUnique(e', recvs[1..]);
    }
  }

  // ----- removals and status updates -----

  function AssemblingWithout(list: seq<PeerFile>, uuid: Uuid): seq<PeerFile> {
    Seqs.Filter(list, (f: PeerFile) => f.uuid != uuid)
  }

  function SendingWithout(list: seq<PendingSend>, peer: PeerId, uuid: Uuid): seq<PendingSend> {
    Seqs.Filter(list, (v: PendingSend) => v.file.uuid != uuid || v.peerID != peer)
  }

  function ReceivingWithout(list: seq<PendingReceive>, peer: PeerId, uuid: Uuid): seq<PendingReceive> {
    Seqs.Filter(list, (v: PendingReceive) => v.file.uuid != uuid || v.peerID != peer)
  }

  function Unsent(list: seq<PendingSend>): seq<PendingSend> {
    Seqs.Filter(list, (v: PendingSend) => v.status != Sent)
  }

  function Unreceived(list: seq<PendingReceive>): seq<PendingReceive> {
    Seqs.Filter(list, (v: PendingReceive) => v.status != Received)
  }

  /** `removeAssembling` drops exactly the files with that uuid; every other file keeps its
      number of occurrences, and the survivors keep their order. */
  lemma AssemblingWithoutExact(list: seq<PeerFile>, uuid: Uuid, a: seq<PeerFile>, b: seq<PeerFile>)
    ensures forall f :: f in AssemblingWithout(list, uuid) <==> f in list && f.uuid != uuid
    ensures forall f: PeerFile :: f.uuid != uuid ==> multiset(AssemblingWithout(list, uuid))[f] == multiset(list)[f]
    ensures AssemblingWithout(a + b, uuid) == AssemblingWithout(a, uuid) + AssemblingWithout(b, uuid)
  {
    var keep := (f: PeerFile) => f.uuid != uuid;
    forall f ensures f in AssemblingWithout(list, uuid) <==> f in list && f.uuid != uuid {
      Seqs.FilterMembership(list, keep, f);
    }
    forall f: PeerFile | f.uuid != uuid ensures multiset(AssemblingWithout(list, uuid))[f] == multiset(list)[f] {
      Seqs.FilterCount(list, keep, f);
    }
    Seqs.FilterAppend(a, b, keep);
  }

  /** `removeSending` drops exactly the sends matching both peer and uuid; every other send keeps
      its number of occurrences, and the survivors keep their order. */
  lemma SendingWithoutExact(list: seq<PendingSend>, peer: PeerId, uuid: Uuid, a: seq<PendingSend>, b: seq<PendingSend>)
    ensures forall v :: v in SendingWithout(list, peer, uuid) <==> v in list && !SendIs(v, peer, uuid)
    ensures forall v: PendingSend :: !SendIs(v, peer, uuid) ==> multiset(SendingWithout(list, peer, uuid))[v] == multiset(list)[v]
    ensures SendingWithout(a + b, peer, uuid) == SendingWithout(a, peer, uuid) + SendingWithout(b, peer, uuid)
  {
    var keep := (v: PendingSend) => v.file.uuid != uuid || v.peerID != peer;
    forall v ensures v in SendingWithout(list, peer, uuid) <==> v in list && !SendIs(v, peer, uuid) {
      Seqs.FilterMembership(list, keep, v);
    }
    forall v: PendingSend | !SendIs(v, peer, uuid) ensures multiset(SendingWithout(list, peer, uuid))[v] == multiset(list)[v] {
      Seqs.FilterCount(list, keep, v);
    }
    Seqs.FilterAppend(a, b, keep);
  }

  /** `removeReceiving` drops exactly the receives matching both peer and uuid; every other receive
      keeps its number of occurrences, and the survivors keep their order. */
  lemma ReceivingWithoutExact(list: seq<PendingReceive>, peer: PeerId, uuid: Uuid, a: seq<PendingReceive>, b: seq<PendingReceive>)
    ensures forall v :: v in ReceivingWithout(list, peer, uuid) <==> v in list && !ReceiveIs(v, peer, uuid)
    ensures forall v: PendingReceive :: !ReceiveIs(v, peer, uuid) ==> multiset(ReceivingWithout(list, peer, uuid))[v] == multiset(list)[v]
    ensures ReceivingWithout(a + b, peer, uuid) == ReceivingWithout(a, peer, uuid) + ReceivingWithout(b, peer, uuid)
  {
    var keep := (v: PendingReceive) => v.file.uuid != uuid || v.peerID != peer;
    forall v ensures v in ReceivingWithout(list, peer, uuid) <==> v in list && !ReceiveIs(v, peer, uuid) {
      Seqs.FilterMembership(list, keep, v);
    }
    forall v: PendingReceive | !ReceiveIs(v, peer, uuid) ensures multiset(ReceivingWithout(list, peer, uuid))[v] == multiset(list)[v] {
      Seqs.FilterCount(list, keep, v);
    }
    Seqs.FilterAppend(a, b, keep);
  }

  /** `clearSent` drops exactly the sends whose status is 'sent', keeping order. */
  lemma UnsentExact(list: seq<PendingSend>, a: seq<PendingSend>, b: seq<PendingSend>)
    ensures forall v :: v in Unsent(list) <==> v in list && v.status != Sent
    ensures Unsent(a + b) == Unsent(a) + Unsent(b)
  {
    forall v ensures v in Unsent(list) <==> v in list && v.status != Sent {
      Seqs.FilterMembership(list, (v: PendingSend) => v.status != Sent, v);
    }
    Seqs.FilterAppend(a, b, (v: PendingSend) => v.status != Sent);
  }

  /** `clearReceived` drops exactly the receives whose status is 'received', keeping order. */
  lemma UnreceivedExact(list: seq<PendingReceive>, a: seq<PendingReceive>, b: seq<PendingReceive>)
    ensures forall v :: v in Unreceived(list) <==> v in list && v.status != Received
    ensures Unreceived(a + b) == Unreceived(a) + Unreceived(b)
  {
    forall v ensures v in Unreceived(list) <==> v in list && v.status != Received {
      Seqs.FilterMembership(list, (v: PendingReceive) => v.status != Received, v);
    }
    Seqs.FilterAppend(a, b, (v: PendingReceive) => v.status != Received);
  }

  /** `updateSendingStatus`: the first send matching (uuid, peer) gets the new status. */
  function WithSendStatus(list: seq<PendingSend>, peer: PeerId, uuid: Uuid, status: SendStatus): seq<PendingSend> {
    Seqs.UpdateFirst(list, (v: PendingSend) => SendIs(v, peer, uuid), (v: PendingSend) => v.(status := status))
  }

  /** `updateReceivingStatus`: the first receive matching (uuid, peer) gets the new status. */
  function WithReceiveStatus(list: seq<PendingReceive>, peer: PeerId, uuid: Uuid, status: ReceiveStatus): seq<PendingReceive> {
    Seqs.UpdateFirst(list, (v: PendingReceive) => ReceiveIs(v, peer, uuid), (v: PendingReceive) => v.(status := status))
  }

  /** A status update keeps the length, changes at most the first matching entry and of it only
      the status, and changes nothing when no entry matches. */
  lemma SendStatusUpdateIsLocal(list: seq<PendingSend>, peer: PeerId, uuid: Uuid, status: SendStatus)
    ensures |WithSendStatus(list, peer, uuid, status)| == |list|
    ensures forall j :: 0 <= j < |list| ==>
      WithSendStatus(list, peer, uuid, status)[j] ==
        if Seqs.IsFirst(list, j, (v: PendingSend) => SendIs(v, peer, uuid)) then list[j].(status := status) else list[j]
    ensures !HasSend(list, peer, uuid) ==> WithSendStatus(list, peer, uuid, status) == list
  {
  }

  /** The receiving counterpart of SendStatusUpdateIsLocal. */
  lemma ReceiveStatusUpdateIsLocal(list: seq<PendingReceive>, peer: PeerId, uuid: Uuid, status: ReceiveStatus)
    ensures |WithReceiveStatus(list, peer, uuid, status)| == |list|
    ensures forall j :: 0 <= j < |list| ==>
      WithReceiveStatus(list, peer, uuid, status)[j] ==
        if Seqs.IsFirst(list, j, (v: PendingReceive) => ReceiveIs(v, peer, uuid)) then list[j].(status := status) else list[j]
    ensures (forall j :: 0 <= j < |list| ==> !ReceiveIs(list[j], peer, uuid)) ==> WithReceiveStatus(list, peer, uuid, status) == list
  {
  }

  // ----- the store -----

  class FileStore {
    /** The store's current value; None once an updater has returned nothing (undefined). */
    var value: Option<Files>

    constructor ()
      ensures value == Some(Initial)
    {
      value := Some(Initial);
    }

    /** `fs.assembling.push(file)`; throws when the value or its list is missing. */
    method AddAssembling(file: PeerFile) returns (threw: bool)
      modifies this
      ensures threw <==> AssemblingOf(old(value)).None?
      ensures threw ==> value == old(value)
      ensures !threw ==> value.Some? && AssemblingOf(value) == Some(AssemblingOf(old(value)).value + [file])
      ensures !threw ==> SendingOf(value) == SendingOf(old(value)) && ReceivingOf(value) == ReceivingOf(old(value))
    {
      if AssemblingOf(value).None? {
        return true;
      }
      var fs := value.value;
      value := Some(fs.(assembling := Some(fs.assembling.value + [file])));
      return false;
    }

    /** Publishes the assembling list without the files whose uuid is `uuid`. */
    method RemoveAssembling(uuid: Uuid) returns (threw: bool)
      modifies this
      ensures threw <==> AssemblingOf(old(value)).None?
      ensures threw ==> value == old(value)
      ensures !threw ==> value.Some? && AssemblingOf(value) == Some(AssemblingWithout(AssemblingOf(old(value)).value, uuid))
      ensures !threw ==> SendingOf(value) == SendingOf(old(value)) && ReceivingOf(value) == ReceivingOf(old(value))
    {
      if AssemblingOf(value).None? {
        return true;
      }
      var fs := value.value;
      value := Some(fs.(assembling := Some(AssemblingWithout(fs.assembling.value, uuid))));
      return false;
    }

    /** Sets the assembling list to empty; only an undefined value makes the assignment throw. */
    method ClearAssembling() returns (threw: bool)
      modifies this
      ensures threw <==> old(value).None?
      ensures threw ==> value == old(value)
      ensures !threw ==> value.Some? && AssemblingOf(value) == Some([])
      ensures !threw ==> SendingOf(value) == SendingOf(old(value)) && ReceivingOf(value) == ReceivingOf(old(value))
    {
      if value.None? {
        return true;
      }
      value := Some(value.value.(assembling := Some([])));
      return false;
    }

    /** Appends each send in turn unless its (uuid, peer) is already listed; at the first such
        duplicate the updater returns nothing and the store's value becomes undefined. The
        lookup throws when the value or its sending list is missing and the batch is non-empty. */
    method AddSending(sends: seq<PendingSend>) returns (threw: bool)
      modifies this
      ensures threw <==> sends != [] && SendingOf(old(value)).None?
      ensures threw || sends == [] ==> value == old(value)
      ensures !threw && sends != [] ==>
        match AppendSends(SendingOf(old(value)).value, sends)
        case None => value == None
        case Some(list) => value == Some(old(value).value.(sending := Some(list)))
    {
      threw := false;
      var i := 0;
      while i < |sends|
        invariant 0 <= i <= |sends|
        invariant i == 0 ==> value == old(value)
        invariant i > 0 ==> old(value).Some? && SendingOf(value).Some? && value == Some(old(value).value.(sending := SendingOf(value)))
        invariant SendingOf(value).Some? ==>
          (SendingOf(old(value)).Some? &&
           AppendSends(SendingOf(old(value)).value, sends) == AppendSends(SendingOf(value).value, sends[i..]))
      {
        if SendingOf(value).None? {
          return true;
        }
        var fs := value.value;
        var list := fs.sending.value;
        var send := sends[i];
        if Seqs.FindIndex(list, (v: PendingSend) => SendIs(v, send.peerID, send.file.uuid)).Some? {
          value := None;
          return;
        }
        assert sends[i..][1..] == sends[i + 1..];
        value := Some(fs.(sending := Some(list + [send])));
        i := i + 1;
      }
    }

    /** Publishes the sending list without the sends for `uuid` to `peer`. */
    method RemoveSending(peer: PeerId, uuid: Uuid) returns (threw: bool)
      modifies this
      ensures threw <==> SendingOf(old(value)).None?
      ensures threw ==> value == old(value)
      ensures !threw ==> value.Some? && SendingOf(value) == Some(SendingWithout(SendingOf(old(value)).value, peer, uuid))
      ensures !threw ==> AssemblingOf(value) == AssemblingOf(old(value)) && ReceivingOf(value) == ReceivingOf(old(value))
    {
      if SendingOf(value).None? {
        return true;
      }
      var fs := value.value;
      value := Some(fs.(sending := Some(SendingWithout(fs.sending.value, peer, uuid))));
      return false;
    }

    /** Assigns `status` to the first send for `uuid` to `peer`, if any. */
    method UpdateSendingStatus(peer: PeerId, uuid: Uuid, status: SendStatus) returns (threw: bool)
      modifies this
      ensures threw <==> SendingOf(old(value)).None?
      ensures threw ==> value == old(value)
      ensures !threw ==> value.Some? && SendingOf(value) == Some(WithSendStatus(SendingOf(old(value)).value, peer, uuid, status))
      ensures !threw ==> AssemblingOf(value) == AssemblingOf(old(value)) && ReceivingOf(value) == ReceivingOf(old(value))
    {
      if SendingOf(value).None? {
        return true;
      }
      var fs := value.value;
      var list := fs.sending.value;
      var found := Seqs.FindIndex(list, (v: PendingSend) => SendIs(v, peer, uuid));
      if found.Some? {
        var k := found.value;
        list := list[k := list[k].(status := status)];
      }
      value := Some(fs.(sending := Some(list)));
      return false;
    }

    /** Publishes the sending list without the sends whose status is 'sent'. */
    method ClearSent() returns (threw: bool)
      modifies this
      ensures threw <==> SendingOf(old(value)).None?
      ensures threw ==> value == old(value)
      ensures !threw ==> value.Some? && SendingOf(value) == Some(Unsent(SendingOf(old(value)).value))
      ensures !threw ==> AssemblingOf(value) == AssemblingOf(old(value)) && ReceivingOf(value) == ReceivingOf(old(value))
    {
      if SendingOf(value).None? {
        return true;
      }
      var fs := value.value;
      value := Some(fs.(sending := Some(Unsent(fs.sending.value))));
      return false;
    }

    /** Appends each receive in turn unless its uuid is already listed (whatever the peer); at
        the first such duplicate the store's value becomes undefined. */
    method AddReceiving(recvs: seq<PendingReceive>) returns (threw: bool)
      modifies this
      ensures threw <==> recvs != [] && ReceivingOf(old(value)).None?
      ensures threw || recvs == [] ==> value == old(value)
      ensures !threw && recvs != [] ==>
        match AppendReceives(ReceivingOf(old(value)).value, recvs)
        case None => value == None
        case Some(list) => value == Some(old(value).value.(receiving := Some(list)))
    {
      threw := false;
      var i := 0;
      while i < |recvs|
        invariant 0 <= i <= |recvs|
        invariant i == 0 ==> value == old(value)
        invariant i > 0 ==> old(value).Some? && ReceivingOf(value).Some? && value == Some(old(value).value.(receiving := ReceivingOf(value)))
        invariant ReceivingOf(value).Some? ==>
          (ReceivingOf(old(value)).Some? &&
           AppendReceives(ReceivingOf(old(value)).value, recvs) == AppendReceives(ReceivingOf(value).value, recvs[i..]))
      {
        if ReceivingOf(value).None? {
          return true;
        }
        var fs := value.value;
        var list := fs.receiving.value;
        var recv := recvs[i];
        if Seqs.FindIndex(list, (v: PendingReceive) => v.file.uuid == recv.file.uuid).Some? {
          value := None;
          return;
        }
        assert recvs[i..][1..] == recvs[i + 1..];
        value := Some(fs.(receiving := Some(list + [recv])));
        i := i + 1;
      }
    }

    /** Publishes the receiving list without the receives for `uuid` from `peer`. */
    method RemoveReceiving(peer: PeerId, uuid: Uuid) returns (threw: bool)
      modifies this
      ensures threw <==> ReceivingOf(old(value)).None?
      ensures threw ==> value == old(value)
      ensures !threw ==> value.Some? && ReceivingOf(value) == Some(ReceivingWithout(ReceivingOf(old(value)).value, peer, uuid))
      ensures !threw ==> AssemblingOf(value) == AssemblingOf(old(value)) && SendingOf(value) == SendingOf(old(value))
    {
      if ReceivingOf(value).None? {
        return true;
      }
      var fs := value.value;
      value := Some(fs.(receiving := Some(ReceivingWithout(fs.receiving.value, peer, uuid))));
      return false;
    }

    /** Assigns `status` to the first receive for `uuid` from `peer`, if any. */
    method UpdateReceivingStatus(peer: PeerId, uuid: Uuid, status: ReceiveStatus) returns (threw: bool)
      modifies this
      ensures threw <==> ReceivingOf(old(value)).None?
      ensures threw ==> value == old(value)
      ensures !threw ==> value.Some? && ReceivingOf(value) == Some(WithReceiveStatus(ReceivingOf(old(value)).value, peer, uuid, status))
      ensures !threw ==> AssemblingOf(value) == AssemblingOf(old(value)) && SendingOf(value) == SendingOf(old(value))
    {
      if ReceivingOf(value).None? {
        return true;
      }
      var fs := value.value;
      var list := fs.receiving.value;
      var found := Seqs.FindIndex(list, (v: PendingReceive) => ReceiveIs(v, peer, uuid));
      if found.Some? {
        var k := found.value;
        list := list[k := list[k].(status := status)];
      }
      value := Some(fs.(receiving := Some(list)));
      return false;
    }

    /** Publishes the receiving list without the receives whose status is 'received'. */
    method ClearReceived() returns (threw: bool)
      modifies this
      ensures threw <==> ReceivingOf(old(value)).None?
      ensures threw ==> value == old(value)
      ensures !threw ==> value.Some? && ReceivingOf(value) == Some(Unreceived(ReceivingOf(old(value)).value))
      ensures !threw ==> AssemblingOf(value) == AssemblingOf(old(value)) && SendingOf(value) == SendingOf(old(value))
    {
      if ReceivingOf(value).None? {
        return true;
      }
      var fs := value.value;
      value := Some(fs.(receiving := Some(Unreceived(fs.receiving.value))));
      return false;
    }

    /** Publishes a shallow copy of the value: the same three lists, or, for an undefined value,
        the empty record (spreading undefined contributes no properties). */
    method Refresh()
      modifies this
      ensures old(value).Some? ==> value == old(value)
      ensures old(value).None? ==> value == Some(Files(None, None, None))
    {
      if value.None? {
        value := Some(Files(None, None, None));
      } else {
        value := Some(value.value);
      }
    }
  }
}
