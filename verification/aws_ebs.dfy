/** `CloudInventarioEbs._read_data` of
    `cloudinventario_amazon_aws/res_collectors/ebs.py`: EBS volumes folded
    into per-instance storage. Each attachment lists the volume under its
    instance; the volume's size is counted once, for its first attachment. */
module AwsEbs {

  datatype Attachment = Attachment(instanceId: string, device: string)

  datatype Volume = Volume(volumeId: string, size: int, volumeType: string, encrypted: bool,
                           attachments: seq<Attachment>)

  /** One entry of an instance's `storages` list (`free` is always None). */
  datatype StorageEntry = StorageEntry(id: string, name: string, capacity: int, volumeType: string,
                                       encrypted: bool, details: Volume)

  /** The `{"size", "storages"}` dict kept per instance. */
  datatype Usage = Usage(size: int, storages: seq<StorageEntry>)

  function Entry(v: Volume, a: Attachment): StorageEntry {
    StorageEntry(v.volumeId, a.device, v.size * 1024, v.volumeType, v.encrypted, v)
  }

  /** An instance not yet in the dict. */
  function UsageOf(m: map<string, Usage>, iid: string): Usage {
    if iid in m then m[iid] else Usage(0, [])
  }

  /** The inner loop over the first `idx` attachments of `v`, in their
      original order. */
  function ReadAttachments(st: map<string, Usage>, v: Volume, idx: nat): map<string, Usage>
    requires idx <= |v.attachments|
  {
    if idx == 0 then st
    else
      var prev := ReadAttachments(st, v, idx - 1);
      var a := v.attachments[idx - 1];
      var u := UsageOf(prev, a.instanceId);
      var size := if idx - 1 == 0 then u.size + v.size * 1024 else u.size;
      prev[a.instanceId := Usage(size, u.storages + [Entry(v, a)])]
  }

  /** `_read_data` over the volumes of `describe_volumes()`. */
  function ReadEbs(volumes: seq<Volume>): map<string, Usage> {
    if |volumes| == 0 then map[]
    else
      var v := volumes[|volumes| - 1];
      ReadAttachments(ReadEbs(volumes[..|volumes| - 1]), v, |v.attachments|)
  }

  // A per-instance reference definition of the same result.

  /** The instances some volume is attached to. */
  function AttachedInstances(volumes: seq<Volume>): set<string> {
    set i, k | 0 <= i < |volumes| && 0 <= k < |volumes[i].attachments| :: volumes[i].attachments[k].instanceId
  }

  /** The entries one volume contributes to instance `iid`: one per attachment naming it. */
  function VolumeEntries(v: Volume, idx: nat, iid: string): seq<StorageEntry>
    requires idx <= |v.attachments|
  {
    if idx == 0 then []
    else VolumeEntries(v, idx - 1, iid) +
         (if v.attachments[idx - 1].instanceId == iid then [Entry(v, v.attachments[idx - 1])] else [])
  }

  /** Instance `iid`'s entries: volume order, then attachment order. */
  function EntriesFor(volumes: seq<Volume>, iid: string): seq<StorageEntry> {
    if |volumes| == 0 then []
    else
      var v := volumes[|volumes| - 1];
      EntriesFor(volumes[..|volumes| - 1], iid) + VolumeEntries(v, |v.attachments|, iid)
  }

  /** The volume's size is credited to its first attachment's instance. */
  function Credit(v: Volume, iid: string): int {
    if |v.attachments| > 0 && v.attachments[0].instanceId == iid then v.size * 1024 else 0
  }

  /** Instance `iid`'s size: the sizes of the volumes whose first attachment names it. */
  function SizeFor(volumes: seq<Volume>, iid: string): int {
    if |volumes| == 0 then 0 else SizeFor(volumes[..|volumes| - 1], iid) + Credit(volumes[|volumes| - 1], iid)
  }

  lemma {:induction false} ReadAttachmentsKeys(st: map<string, Usage>, v: Volume, idx: nat)
    requires idx <= |v.attachments|
    ensures ReadAttachments(st, v, idx).Keys ==
              st.Keys + set k | 0 <= k < idx :: v.attachments[k].instanceId
  {
    if idx > 0 {
      ReadAttachmentsKeys(st, v, idx - 1);
    }
  }

  lemma {:induction false} ReadAttachmentsUsage(st: map<string, Usage>, v: Volume, idx: nat, iid: string)
    requires idx <= |v.attachments|
    ensures UsageOf(ReadAttachments(st, v, idx), iid) ==
              Usage(UsageOf(st, iid).size + (if idx > 0 then Credit(v, iid) else 0),
                    UsageOf(st, iid).storages + VolumeEntries(v, idx, iid))
  {
    if idx > 0 {
      ReadAttachmentsUsage(st, v, idx - 1, iid);
    }
  }

  /** The fold agrees with the per-instance reference: the keys are exactly
      the attached instances, each instance's entries are its attachments in
      volume order, and its size counts each volume once, for the first
      attachment in original order. */
  lemma {:induction false} ReadEbsMatchesReference(volumes: seq<Volume>, iid: string)
    ensures ReadEbs(volumes).Keys == AttachedInstances(volumes)
    ensures UsageOf(ReadEbs(volumes), iid) == Usage(SizeFor(volumes, iid), EntriesFor(volumes, iid))
  {
    if |volumes| > 0 {
      var init := volumes[..|volumes| - 1];
      var v := volumes[|volumes| - 1];
      ReadEbsMatchesReference(init, iid);
      ReadAttachmentsKeys(ReadEbs(init), v, |v.attachments|);
      ReadAttachmentsUsage(ReadEbs(init), v, |v.attachments|, iid);
      if |v.attachments| == 0 {
        assert Credit(v, iid) == 0;
      }
      assert AttachedInstances(volumes) ==
             AttachedInstances(init) + set k | 0 <= k < |v.attachments| :: v.attachments[k].instanceId by {
        forall t | t in AttachedInstances(volumes)
          ensures t in AttachedInstances(init) + set k | 0 <= k < |v.attachments| :: v.attachments[k].instanceId
        {
          var i, k :| 0 <= i < |volumes| && 0 <= k < |volumes[i].attachments| && volumes[i].attachments[k].instanceId == t;
          if i < |init| {
            assert init[i] == volumes[i];
          }
        }
        forall t | t in AttachedInstances(init) ensures t in AttachedInstances(volumes) {
          var i, k :| 0 <= i < |init| && 0 <= k < |init[i].attachments| && init[i].attachments[k].instanceId == t;
          assert volumes[i] == init[i];
        }
      }
    }
  }

  /** An instance has one entry per attachment naming it. */
  lemma {:induction false} VolumeEntriesCount(v: Volume, idx: nat, iid: string)
    requires idx <= |v.attachments|
    ensures |VolumeEntries(v, idx, iid)| == |set k | 0 <= k < idx && v.attachments[k].instanceId == iid|
  {
    if idx > 0 {
      VolumeEntriesCount(v, idx - 1, iid);
      var before := set k | 0 <= k < idx - 1 && v.attachments[k].instanceId == iid;
      var now := set k | 0 <= k < idx && v.attachments[k].instanceId == iid;
      if v.attachments[idx - 1].instanceId == iid {
        assert now == before + {idx - 1};
      } else {
        assert now == before;
      }
    }
  }

  /** Every entry describes its volume: the volume id, the device of the
      attachment, and the size in MB. */
  lemma {:induction false} EntriesDescribeVolumes(volumes: seq<Volume>, iid: string)
    ensures forall e :: e in EntriesFor(volumes, iid) ==>
              exists i, k :: 0 <= i < |volumes| && 0 <= k < |volumes[i].attachments|
                && volumes[i].attachments[k].instanceId == iid
                && e.id == volumes[i].volumeId && e.name == volumes[i].attachments[k].device
                && e.capacity == volumes[i].size * 1024
  {
    if |volumes| > 0 {
      var init := volumes[..|volumes| - 1];
      var v := volumes[|volumes| - 1];
      EntriesDescribeVolumes(init, iid);
      VolumeEntriesFromAttachments(v, |v.attachments|, iid);
      forall e | e in EntriesFor(volumes, iid)
        ensures exists i, k :: (0 <= i < |volumes| && 0 <= k < |volumes[i].attachments|
                  && volumes[i].attachments[k].instanceId == iid
                  && e.id == volumes[i].volumeId && e.name == volumes[i].attachments[k].device
                  && e.capacity == volumes[i].size * 1024)
      {
        if e in EntriesFor(init, iid) {
          var i, k :| 0 <= i < |init| && 0 <= k < |init[i].attachments|
                && init[i].attachments[k].instanceId == iid
                && e.id == init[i].volumeId && e.name == init[i].attachments[k].device
                && e.capacity == init[i].size * 1024;
          assert volumes[i] == init[i];
        } else {
          var k :| 0 <= k < |v.attachments| && v.attachments[k].instanceId == iid && e == Entry(v, v.attachments[k]);
          assert volumes[|volumes| - 1] == v;
        }
      }
    }
  }

  lemma {:induction false} VolumeEntriesFromAttachments(v: Volume, idx: nat, iid: string)
    requires idx <= |v.attachments|
    ensures forall e :: e in VolumeEntries(v, idx, iid) ==>
              exists k :: 0 <= k < idx && v.attachments[k].instanceId == iid && e == Entry(v, v.attachments[k])
  {
    if idx > 0 {
      VolumeEntriesFromAttachments(v, idx - 1, iid);
    }
  }

  /** A volume without attachments leaves the result unchanged. */
  lemma UnattachedVolumeIgnored(volumes: seq<Volume>, v: Volume)
    requires |v.attachments| == 0
    ensures ReadEbs(volumes + [v]) == ReadEbs(volumes)
  {
    assert (volumes + [v])[..|volumes|] == volumes;
  }

  /** The worked example: one volume attached to two instances is listed on
      both, but its size is counted only on the first. */
  lemma SharedVolumeCountedOnce(id: string, size: int)
    ensures var v := Volume(id, size, "gp2", false, [Attachment("i-1", "/dev/a"), Attachment("i-2", "/dev/b")]);
            var r := ReadEbs([v]);
            && r.Keys == {"i-1", "i-2"}
            && r["i-1"].size == size * 1024 && r["i-2"].size == 0
            && |r["i-1"].storages| == 1 && |r["i-2"].storages| == 1
  {
    var a1, a2 := Attachment("i-1", "/dev/a"), Attachment("i-2", "/dev/b");
    var v := Volume(id, size, "gp2", false, [a1, a2]);
    var none: map<string, Usage> := map[];
    assert [v][..0] == [];
    assert ReadEbs([v]) == ReadAttachments(none, v, 2);
    assert v.attachments[0] == a1 && v.attachments[1] == a2;
    var m0 := ReadAttachments(none, v, 0);
    assert m0 == none;
    var m1 := ReadAttachments(none, v, 1);
    assert m1 == m0["i-1" := Usage(UsageOf(m0, "i-1").size + size * 1024, UsageOf(m0, "i-1").storages + [Entry(v, a1)])];
    assert UsageOf(m0, "i-1") == Usage(0, []);
    assert [] + [Entry(v, a1)] == [Entry(v, a1)];
    assert ReadAttachments(none, v, 2) == m1["i-2" := Usage(UsageOf(m1, "i-2").size, UsageOf(m1, "i-2").storages + [Entry(v, a2)])];
  }
}
