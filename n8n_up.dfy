/**
 * The start-up Lambda of the n8n stack (LambdaFiles/n8nUp.py): it builds
 * an AMI from the newest snapshot tagged with the Auto Scaling group's
 * name, points a new launch-template version at it, scales the group to
 * one, deletes the snapshots no image uses any more, and points the DNS
 * record at the first running or pending instance. The EC2, Auto Scaling
 * and Route 53 answers are inputs.
 */
module N8nUp {
  import opened Common
  import opened JsonValue
  import opened HubCommon

  // ---------------------------------------------------------------------
  // The newest snapshot

  /** A snapshot: its id, its StartTime (ordered seconds and the `%Y-%m-%d` text) and its VolumeSize if any. */
  datatype Snapshot = Snapshot(snapshotId: string, startTime: int, startDate: string, volumeSize: Option<int>)

  /**
   * `sorted(snapshots, key=StartTime, reverse=True)[0]`: the sort is
   * stable, so of the snapshots with the greatest StartTime the first one
   * listed comes first.
   */
  function Latest(snapshots: seq<Snapshot>): (k: nat)
    requires |snapshots| > 0
    ensures k < |snapshots|
    ensures forall i :: 0 <= i < |snapshots| ==> snapshots[i].startTime <= snapshots[k].startTime
    ensures forall i :: 0 <= i < k ==> snapshots[i].startTime < snapshots[k].startTime
    decreases |snapshots|
  {
    if |snapshots| == 1 then 0
    else
      var k := Latest(snapshots[..|snapshots| - 1]);
      assert forall i :: 0 <= i < |snapshots| - 1 ==> snapshots[..|snapshots| - 1][i] == snapshots[i];
      if snapshots[|snapshots| - 1].startTime > snapshots[k].startTime then |snapshots| - 1 else k
  }

  /** No other choice meets both conditions: the newest snapshot listed first is unique. */
  lemma LatestUnique(snapshots: seq<Snapshot>, j: nat)
    requires j < |snapshots|
    requires forall i :: 0 <= i < |snapshots| ==> snapshots[i].startTime <= snapshots[j].startTime
    requires forall i :: 0 <= i < j ==> snapshots[i].startTime < snapshots[j].startTime
    ensures Latest(snapshots) == j
  {
    var k := Latest(snapshots);
    assert snapshots[k].startTime == snapshots[j].startTime;
  }

  // ---------------------------------------------------------------------
  // The image and the launch template

  /** The registration request: name, description, source snapshot and volume size. */
  datatype ImageRequest = ImageRequest(name: string, description: string, snapshotId: string, volumeSize: int)

  /** `f"{ASGName}-AMI-{date}"` and the snapshot's VolumeSize, 8 when it has none. */
  function ImageFor(asgName: Option<string>, snapshot: Snapshot): (r: ImageRequest)
    ensures r.name == Shown(asgName) + "-AMI-" + snapshot.startDate
    ensures r.snapshotId == snapshot.snapshotId
    ensures snapshot.volumeSize.None? ==> r.volumeSize == 8
    ensures snapshot.volumeSize.Some? ==> r.volumeSize == snapshot.volumeSize.value
  {
    ImageRequest(Shown(asgName) + "-AMI-" + snapshot.startDate, "AMI criada a partir do snapshot " + snapshot.snapshotId,
                 snapshot.snapshotId, if snapshot.volumeSize.Some? then snapshot.volumeSize.value else 8)
  }

  /** The new version's data: the latest version's data with ImageId set to the new AMI. */
  function NewTemplateData(latest: map<string, Json>, amiId: string): (data: map<string, Json>)
    ensures "ImageId" in data && data["ImageId"] == JStr(amiId)
    ensures data.Keys == latest.Keys + {"ImageId"}
    ensures forall key :: key in latest && key != "ImageId" ==> data[key] == latest[key]
  {
    latest["ImageId" := JStr(amiId)]
  }

  // ---------------------------------------------------------------------
  // Snapshots no image uses

  /** A block device mapping: `Ebs` absent is None; inside, `SnapshotId` absent is None. */
  datatype Device = Device(ebs: Option<Option<string>>)

  /** The snapshot a mapping names, if it has an `Ebs` with a `SnapshotId`. */
  predicate NamesSnapshot(d: Device) {
    d.ebs.Some? && d.ebs.value.Some?
  }

  /** The snapshot ids of a list of mappings. */
  function DeviceIds(devices: seq<Device>): set<string>
    decreases |devices|
  {
    if |devices| == 0 then {}
    else
      var last := devices[|devices| - 1];
      DeviceIds(devices[..|devices| - 1]) + (if NamesSnapshot(last) then {last.ebs.value.value} else {})
  }

  /** The snapshot ids of every image's mappings. */
  function UsedIds(images: seq<seq<Device>>): set<string>
    decreases |images|
  {
    if |images| == 0 then {} else UsedIds(images[..|images| - 1]) + DeviceIds(images[|images| - 1])
  }

  /** An id is in DeviceIds exactly when some mapping of the list names it. */
  lemma {:induction false} DeviceIdsIff(devices: seq<Device>, id: string)
    ensures id in DeviceIds(devices) <==> exists j :: 0 <= j < |devices| && NamesSnapshot(devices[j]) && devices[j].ebs.value.value == id
    decreases |devices|
  {
    if |devices| > 0 {
      var front := devices[..|devices| - 1];
      DeviceIdsIff(front, id);
      assert forall j :: 0 <= j < |front| ==> front[j] == devices[j];
    }
  }

  /** An id is used exactly when some mapping of some image names it. */
  lemma {:induction false} UsedIdsIff(images: seq<seq<Device>>, id: string)
    ensures id in UsedIds(images) <==>
      exists i, j :: 0 <= i < |images| && 0 <= j < |images[i]| && NamesSnapshot(images[i][j]) && images[i][j].ebs.value.value == id
    decreases |images|
  {
    if |images| > 0 {
      var front := images[..|images| - 1];
      UsedIdsIff(front, id);
      DeviceIdsIff(images[|images| - 1], id);
      assert forall i :: 0 <= i < |front| ==> front[i] == images[i];
    }
  }

  /** The nested loops that collect `used_snapshot_ids`. */
  method CollectUsed(images: seq<seq<Device>>) returns (used: set<string>)
    ensures used == UsedIds(images)
  {
    used := {};
    for i := 0 to |images|
      invariant used == UsedIds(images[..i])
    {
      assert images[..i + 1][..i] == images[..i];
      var devices := images[i];
      ghost var before := used;
      for j := 0 to |devices|
        invariant used == before + DeviceIds(devices[..j])
      {
        assert devices[..j + 1][..j] == devices[..j];
        if NamesSnapshot(devices[j]) {
          used := used + {devices[j].ebs.value.value};
        }
      }
      assert devices[..|devices|] == devices;
    }
    assert images[..|images|] == images;
  }

  /** `[s for s in snapshots if s['SnapshotId'] not in used]`. */
  function Unused(snapshots: seq<Snapshot>, used: set<string>): (r: seq<Snapshot>)
    ensures |r| <= |snapshots|
    ensures forall k :: 0 <= k < |r| ==> r[k] in snapshots && r[k].snapshotId !in used
    ensures forall s :: s in snapshots && s.snapshotId !in used ==> s in r
    decreases |snapshots|
  {
    if |snapshots| == 0 then []
    else
      var rest := Unused(snapshots[1..], used);
      assert forall s :: s in snapshots[1..] ==> s in snapshots;
      assert forall s :: s in snapshots ==> s == snapshots[0] || s in snapshots[1..];
      if snapshots[0].snapshotId in used then rest else [snapshots[0]] + rest
  }

  /** The filter keeps the original order: it distributes over concatenation. */
  lemma {:induction false} UnusedAppend(a: seq<Snapshot>, b: seq<Snapshot>, used: set<string>)
    ensures Unused(a + b, used) == Unused(a, used) + Unused(b, used)
    decreases |a|
  {
    if |a| > 0 {
      assert (a + b)[1..] == a[1..] + b;
      UnusedAppend(a[1..], b, used);
    } else {
      assert a + b == b;
    }
  }

  /** Snapshots no image refers to are all deleted, and only those. */
  lemma DeletedExactlyUnreferenced(snapshots: seq<Snapshot>, images: seq<seq<Device>>, s: Snapshot)
    requires s in snapshots
    ensures s in Unused(snapshots, UsedIds(images)) <==>
      !exists i, j :: 0 <= i < |images| && 0 <= j < |images[i]| && NamesSnapshot(images[i][j]) && images[i][j].ebs.value.value == s.snapshotId
  {
    UsedIdsIff(images, s.snapshotId);
  }

  // ---------------------------------------------------------------------
  // The DNS record

  datatype Instance = Instance(instanceId: string, lifecycleState: string)

  /** `[i['InstanceId'] for i in instances if i['LifecycleState'] in ('InService', 'Pending')]`. */
  function Candidates(instances: seq<Instance>): (ids: seq<string>)
    ensures |ids| <= |instances|
    ensures forall k :: 0 <= k < |ids| ==>
      exists i :: 0 <= i < |instances| && instances[i].instanceId == ids[k] && instances[i].lifecycleState in {"InService", "Pending"}
    ensures forall i :: 0 <= i < |instances| && instances[i].lifecycleState in {"InService", "Pending"} ==> instances[i].instanceId in ids
    decreases |instances|
  {
    if |instances| == 0 then []
    else
      var rest := Candidates(instances[1..]);
      assert forall i :: 1 <= i < |instances| ==> instances[1..][i - 1] == instances[i];
      if instances[0].lifecycleState in {"InService", "Pending"} then [instances[0].instanceId] + rest else rest
  }

  /** The first candidate is the first listed instance that is running or starting. */
  lemma {:induction false} FirstCandidate(instances: seq<Instance>, k: nat)
    requires k < |instances| && instances[k].lifecycleState in {"InService", "Pending"}
    requires forall i :: 0 <= i < k ==> instances[i].lifecycleState !in {"InService", "Pending"}
    ensures |Candidates(instances)| > 0 && Candidates(instances)[0] == instances[k].instanceId
    decreases k
  {
    if k > 0 {
      var rest := instances[1..];
      assert rest[k - 1] == instances[k];
      forall i | 0 <= i < k - 1 ensures rest[i].lifecycleState !in {"InService", "Pending"} {
        assert rest[i] == instances[i + 1];
      }
      FirstCandidate(rest, k - 1);
    }
  }

  /** The UPSERT of one poll: the A record with TTL 300 for the public IP found. */
  datatype Upsert = Upsert(zoneId: Json, recordName: Option<string>, ip: string)

  /** The NameError of an upsert whose zone id was never assigned at start-up. */
  const UnboundZone := "name 'hosted_zone_id' is not defined"

  /** The IndexError of `[0]` on an empty AutoScalingGroups list. */
  const NoGroup := "list index out of range"

  /**
   * One round of the polling loop, given the AutoScalingGroups list of the
   * answer (the instances of each group): an empty list raises at `[0]`;
   * otherwise the first group's first candidate's public IP, when it has
   * one, is written to the record, and else the loop sleeps and polls
   * again (Ok(None)). `zoneId` is what start-up assigned (ParameterId);
   * when it assigned nothing, the upsert raises.
   */
  function Poll(groups: seq<seq<Instance>>, publicIp: string -> Option<string>, zoneId: Option<Json>, recordName: Option<string>)
    : (r: Result<Option<Upsert>>)
    ensures |groups| == 0 ==> r == Err(NoGroup)
    ensures |groups| > 0 ==>
      var found := |Candidates(groups[0])| > 0 && publicIp(Candidates(groups[0])[0]).Some?;
      && (r.Err? <==> found && zoneId.None?)
      && (r.Err? ==> r.error == UnboundZone)
      && (r.Ok? && r.value.Some? <==> found && zoneId.Some?)
      && (r.Ok? && r.value.Some? ==>
            r.value.value == Upsert(zoneId.value, recordName, publicIp(Candidates(groups[0])[0]).value))
  {
    if |groups| == 0 then Err(NoGroup)
    else
      var ids := Candidates(groups[0]);
      if |ids| > 0 && publicIp(ids[0]).Some? then
        if zoneId.None? then Err(UnboundZone)
        else Ok(Some(Upsert(zoneId.value, recordName, publicIp(ids[0]).value)))
      else Ok(None)
  }

  /** An unreadable zone parameter makes the first round that finds an IP raise. */
  lemma UnreadZoneRaises(groups: seq<seq<Instance>>, publicIp: string -> Option<string>, recordName: Option<string>)
    requires |groups| > 0 && |Candidates(groups[0])| > 0 && publicIp(Candidates(groups[0])[0]).Some?
    ensures Poll(groups, publicIp, ParameterId(None), recordName) == Err(UnboundZone)
  {
  }

  /** A readable parameter with an `id` gives the upsert that id. */
  lemma ReadZoneUpserts(parameter: Json, groups: seq<seq<Instance>>, publicIp: string -> Option<string>, recordName: Option<string>)
    requires Get(parameter, "id").Some?
    requires |groups| > 0 && |Candidates(groups[0])| > 0 && publicIp(Candidates(groups[0])[0]).Some?
    ensures Poll(groups, publicIp, ParameterId(Some(parameter)), recordName)
      == Ok(Some(Upsert(Get(parameter, "id").value, recordName, publicIp(Candidates(groups[0])[0]).value)))
  {
  }

  // ---------------------------------------------------------------------
  // The handler up to the polling loop

  /** What the run requests: the image, the launch template to update with its new data, and the snapshots to delete. */
  datatype Plan = Plan(image: ImageRequest, templateId: Json, templateData: map<string, Json>, toDelete: seq<Snapshot>)

  /** The UnboundLocalError of the registration when no snapshot was listed. */
  const NoSnapshot := "local variable 'latest_snapshot' referenced before assignment"

  /** The NameError of the template calls when start-up assigned no template id. */
  const UnboundTemplate := "name 'launch_template_id' is not defined"

  /**
   * lambda_handler's steps 1 to 5: no snapshot leaves `latest_snapshot`
   * unassigned, so the registration raises. `templateId` is what start-up
   * assigned (ParameterId); when it assigned nothing, the AMI is still
   * registered and tagged, and the first template call raises. `amiId` is
   * the id the registration returns, `template` the latest version's data,
   * `tagged` the snapshots listed again after the AMI exists and `images`
   * the account's images.
   */
  function Handle(asgName: Option<string>, snapshots: seq<Snapshot>, templateId: Option<Json>, amiId: string,
                  template: map<string, Json>, tagged: seq<Snapshot>, images: seq<seq<Device>>): (r: Result<Plan>)
    ensures r.Err? <==> |snapshots| == 0 || templateId.None?
    ensures |snapshots| == 0 ==> r == Err(NoSnapshot)
    ensures |snapshots| > 0 && templateId.None? ==> r == Err(UnboundTemplate)
    ensures r.Ok? ==> r.value.image == ImageFor(asgName, snapshots[Latest(snapshots)])
    ensures r.Ok? ==> r.value.templateId == templateId.value
    ensures r.Ok? ==> r.value.templateData == NewTemplateData(template, amiId)
    ensures r.Ok? ==> r.value.toDelete == Unused(tagged, UsedIds(images))
  {
    if |snapshots| == 0 then Err(NoSnapshot)
    else if templateId.None? then Err(UnboundTemplate)
    else Ok(Plan(ImageFor(asgName, snapshots[Latest(snapshots)]), templateId.value, NewTemplateData(template, amiId),
                 Unused(tagged, UsedIds(images))))
  }

  /**
   * A value the module's two start-up `try` blocks assign (the hosted zone
   * id, the launch template id): the `id` of the JSON parameter, None when
   * the read, the decoding or the lookup raises.
   */
  function ParameterId(parameter: Option<Json>): (id: Option<Json>)
    ensures parameter.Some? && Get(parameter.value, "id").Some? ==> id == Get(parameter.value, "id")
    ensures parameter.None? ==> id.None?
  {
    if parameter.None? then None else Get(parameter.value, "id")
  }

  /** An unreadable template parameter makes a run with a snapshot raise at the first template call. */
  lemma UnreadTemplateRaises(asgName: Option<string>, snapshots: seq<Snapshot>, amiId: string, template: map<string, Json>,
                             tagged: seq<Snapshot>, images: seq<seq<Device>>)
    requires |snapshots| > 0
    ensures Handle(asgName, snapshots, ParameterId(None), amiId, template, tagged, images) == Err(UnboundTemplate)
  {
  }

  /** A readable template parameter with an `id` makes a run with a snapshot update that template. */
  lemma ReadTemplatePlans(parameter: Json, asgName: Option<string>, snapshots: seq<Snapshot>, amiId: string,
                          template: map<string, Json>, tagged: seq<Snapshot>, images: seq<seq<Device>>)
    requires Get(parameter, "id").Some? && |snapshots| > 0
    ensures Handle(asgName, snapshots, ParameterId(Some(parameter)), amiId, template, tagged, images)
      == Ok(Plan(ImageFor(asgName, snapshots[Latest(snapshots)]), Get(parameter, "id").value,
                 NewTemplateData(template, amiId), Unused(tagged, UsedIds(images))))
  {
  }
}
