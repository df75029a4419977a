/** The provider strategies (`AwsProviderStrategy`, `BareMetalProviderStrategy`) and the
    `start`, `stop` and `save` command handlers: the rules by which they decide what to
    launch, restore, save and terminate. The AWS, S3 and SSH services are replaced by a
    record of their answers (`Cloud`), and every call a handler makes is appended to an
    effect log, in order. */
module Lifecycle {
  import opened Wrappers
  import opened Text
  import opened BackupKey
  import opened Registry

  // ---------------------------------------------------------------------------
  // Instances, tags and the environment

  datatype Tag = Tag(key: string, value: string)

  const SaveNameKey: string := "SaveName"

  /** The part of an EC2 instance description the handlers read: `InstanceId`,
      `PublicIpAddress` and `Tags` (a missing tag list is the empty one). */
  datatype Instance = Instance(id: string, publicIp: Option<string>, tags: seq<Tag>)

  /** The answers of the services during one command. */
  datatype Cloud = Cloud(
    running: Option<Instance>,         // findRunningInstance()
    described: map<string, Instance>,  // DescribeInstances by id; an id it does not know makes the lookup throw
    securityGroup: string,             // ensureSecurityGroup()
    launchedId: string,                // launchInstance()
    readyIp: Option<string>,           // waitForInstance(); None when it rejects
    objects: seq<StoredObject>,        // listBackups()
    terminates: bool                   // TerminateInstances succeeds
  )

  /** One call a handler makes, in the order it makes them. */
  datatype Effect =
    | Defer                                  // interaction.deferReply()
    | Reply(text: string)                    // sendReply
    | FollowUp(text: string)                 // sendFollowUp
    | Discover                               // findRunningInstance()
    | DescribeInstance(id: string)           // DescribeInstances for the cached id
    | EnsureSecurityGroup                    // ensureSecurityGroup()
    | Launch(securityGroup: string, tags: seq<Tag>)
    | WaitForInstance(id: string)
    | LookupLatest(name: string)             // getLatestBackupFile(name)
    | Setup(ip: string, backupFile: Option<string>, version: Option<string>, prep: seq<string>)
    | RconSave(ip: string)                   // rconSave(ip)
    | RunBackup(ip: string, name: string, stopContainer: bool)  // sshExec(ip, backupCommands(name) [+ docker stop])
    | Terminate(id: string)
    | TagSaveName(id: string, name: string)  // CreateTags with SaveName
    | CheckContainer(ip: string)             // sshExec(ip, 'sudo docker ps -q -f name=factorio')

  /** The effects of one command and the value `state.instanceId` holds afterwards. */
  datatype Run = Run(effects: seq<Effect>, instanceId: Option<string>)

  // ---------------------------------------------------------------------------
  // Messages and constants

  const CheckingText: string := "Checking for existing server..."
  const AlreadyRunningText: string := "Server already running"
  const LaunchingText: string := "Launching EC2 instance..."
  const NoServerText: string := "No running server"
  const TerminatedText: string := "Server terminated"
  const StoppedText: string := "Server stopped"
  const SaveCompleteText: string := "Save complete"
  const InstallingText: string := "Installing docker..."

  function StoppingText(name: string): string { "Stopping server and saving as " + name + "..." }
  function SavingText(name: string): string { "Saving as `" + name + "`..." }
  function RunningAtText(ip: string): string { "Factorio server running at `" + ip + "`" }
  function UsingServerText(ip: string): string { "Using existing server at `" + ip + "`..." }

  /** The AWS strategy's launch message; `backup` is quoted only when an archive is restored. */
  function LaunchedText(ip: string, restoring: bool, backup: string): string {
    "Instance launched with IP `" + ip + "`"
    + (if restoring then ", restoring backup `" + backup + "`..." else ", installing docker...")
  }

  /** `commands/start.js`'s launch message, which names neither the address in quotes nor the archive. */
  function LaunchedPlainText(ip: string, restoring: bool): string {
    "Instance launched with IP " + ip + (if restoring then ", restoring backup..." else ", installing docker...")
  }

  function RunningAtPlainText(ip: string): string { "Factorio server running at " + ip }

  function RestoringText(backup: string): string { "Restoring backup `" + backup + "`..." }

  /** The host preparation the AWS strategy hands to `sshAndSetup`. */
  const AwsHostPrep: seq<string> := [
    "sudo yum install -y docker",
    "sudo service docker start",
    "sudo mkdir -p /opt/factorio",
    "sudo dd if=/dev/zero of=/swapfile bs=1M count=2048",
    "sudo chmod 600 /swapfile",
    "sudo mkswap /swapfile",
    "sudo swapon /swapfile",
    "echo \"/swapfile none swap sw 0 0\" | sudo tee -a /etc/fstab"
  ]

  // ---------------------------------------------------------------------------
  // Decision rules

  /** `launchInstance`'s tag list: the template tags in order, then a `SaveName` tag
      exactly when the label is truthy. */
  function LaunchTags(template: seq<Tag>, saveLabel: Option<string>): (tags: seq<Tag>)
    ensures |tags| == |template| || |tags| == |template| + 1
    ensures |tags| == |template| + 1 <==> Truthy(saveLabel)
    ensures tags[..|template|] == template
    ensures Truthy(saveLabel) ==> tags[|template|] == Tag(SaveNameKey, saveLabel.value)
  {
    if Truthy(saveLabel) then template + [Tag(SaveNameKey, saveLabel.value)] else template
  }

  /** `(inst.Tags || []).find(t => t.Key === 'SaveName')`, as the tag's value. */
  function FindSaveName(tags: seq<Tag>): (r: Option<string>)
    ensures r.None? <==> forall i :: 0 <= i < |tags| ==> tags[i].key != SaveNameKey
    ensures r.Some? ==> exists i :: 0 <= i < |tags| && tags[i] == Tag(SaveNameKey, r.value)
                          && forall j :: 0 <= j < i ==> tags[j].key != SaveNameKey
  {
    if tags == [] then None
    else if tags[0].key == SaveNameKey then Some(tags[0].value)
    else
      var r := FindSaveName(tags[1..]);
      assert forall j :: 1 <= j < |tags| ==> tags[j] == tags[1..][j - 1];
      r
  }

  /** `` `backup-${Date.now()}` `` for the clock reading `nowMs`. */
  function TimestampName(nowMs: nat): string {
    "backup-" + NatToString(nowMs)
  }

  /** The save name: the input when truthy, else the `SaveName` tag's value, else
      `backup-<ms>`. The stop handlers have no input and pass `None`. */
  function SaveNameChoice(input: Option<string>, tags: seq<Tag>, nowMs: nat): (name: string)
    ensures Truthy(input) ==> name == input.value
    ensures !Truthy(input) && FindSaveName(tags).Some? ==> name == FindSaveName(tags).value
    ensures !Truthy(input) && FindSaveName(tags).None? ==> name == TimestampName(nowMs)
  {
    if Truthy(input) then input.value
    else match FindSaveName(tags)
      case Some(v) => v
      case None => TimestampName(nowMs)
  }

  /** `backup ? parseBackupKey(backup) : null`, then `parsed ? parsed.name : backup || undefined`. */
  function SaveLabel(backup: Option<string>): (r: Option<string>)
    ensures !Truthy(backup) ==> r.None?
    ensures Truthy(backup) && ParseBackupKey(backup.value).Some? ==> r == Some(ParseBackupKey(backup.value).value.name)
    ensures Truthy(backup) && ParseBackupKey(backup.value).None? ==> r == backup
  {
    if !Truthy(backup) then None
    else match ParseBackupKey(backup.value)
      case Some(b) => Some(b.name)
      case None => backup
  }

  predicate EndsWith(s: string, suffix: string) {
    |suffix| <= |s| && s[|s| - |suffix|..] == suffix
  }

  /** A truthy backup argument without the archive suffix names a save, whose latest
      archive has to be looked up. */
  predicate NeedsLookup(backup: Option<string>) {
    Truthy(backup) && !EndsWith(backup.value, ArchiveSuffix)
  }

  /** The archive to restore: none without a backup argument, the argument itself when
      it ends in `.tar.bz2`, otherwise the newest archive of that save name, if any. */
  function BackupFileChoice(backup: Option<string>, objects: seq<StoredObject>): (r: Option<string>)
    ensures r.None? <==> !Truthy(backup) || (NeedsLookup(backup) && forall o :: o in objects ==> !IsBackupOf(o, backup.value))
    ensures Truthy(backup) && !NeedsLookup(backup) ==> r == backup
    ensures NeedsLookup(backup) && r.Some? ==>
      ParseBackupKey(r.value).Some? && ParseBackupKey(r.value).value.name == backup.value
      && exists o :: o in objects && o.key == r.value
           && forall p :: p in objects && IsBackupOf(p, backup.value) ==> p.lastModified <= o.lastModified
  {
    if !Truthy(backup) then None
    else if !NeedsLookup(backup) then backup
    else
      var r := LatestBackupKey(objects, backup.value);
      if r.None? then r else LatestBackupKeyParses(objects, backup.value); r
  }

  /** `version || undefined`. */
  function VersionArg(version: Option<string>): (r: Option<string>)
    ensures Truthy(r) <==> Truthy(version)
    ensures r.Some? ==> r == version
  {
    if Truthy(version) then version else None
  }

  /** The RCON save and the backup, run only when the instance has a public address;
      `rconFirst` says whether the handler saves the world over RCON first. */
  function BackupEffects(ip: Option<string>, name: string, rconFirst: bool): (es: seq<Effect>)
    ensures es == [] <==> !Truthy(ip)
    ensures Truthy(ip) ==> es[|es| - 1] == RunBackup(ip.value, name, false)
    ensures Truthy(ip) ==> (|es| == 2 <==> rconFirst) && (rconFirst ==> es[0] == RconSave(ip.value))
    ensures |es| <= 2
  {
    if !Truthy(ip) then []
    else (if rconFirst then [RconSave(ip.value)] else []) + [RunBackup(ip.value, name, false)]
  }

  /** The answer of the container check: the output `sshExec` resolves with, already
      trimmed, or None when the check fails. A non-empty output means the container
      runs; a failure is swallowed and counts as not running. */
  predicate ContainerRunning(dockerPs: Option<string>) {
    dockerPs.Some? && dockerPs.value != ""
  }

  /** How `stop` finds the instance. */
  datatype Resolution = Found(inst: Instance) | NotFound | Threw

  /** The cached `state.instanceId` is described when set (an unknown id makes the
      lookup throw); otherwise discovery runs. */
  function Resolve(cloud: Cloud, cached: Option<string>): (res: Resolution)
    ensures res.Threw? <==> cached.Some? && cached.value !in cloud.described
    ensures res.NotFound? <==> cached.None? && cloud.running.None?
    ensures cached.Some? && res.Found? ==> res.inst == cloud.described[cached.value]
    ensures cached.None? && res.Found? ==> cloud.running == Some(res.inst)
  {
    match cached
    case Some(id) => if id in cloud.described then Found(cloud.described[id]) else Threw
    case None => if cloud.running.Some? then Found(cloud.running.value) else NotFound
  }

  function ProbeEffect(cached: Option<string>): Effect {
    if cached.Some? then DescribeInstance(cached.value) else Discover
  }

  // ---------------------------------------------------------------------------
  // What each handler does

  /** `AwsProviderStrategy.start`. */
  function AwsStartRun(cloud: Cloud, template: seq<Tag>, backup: Option<string>, version: Option<string>,
                       cached: Option<string>): Run
  {
    var head := [Reply(CheckingText), Discover];
    if cloud.running.Some? then Run(head + [FollowUp(AlreadyRunningText)], cached)
    else
      var launch := head + [FollowUp(LaunchingText), EnsureSecurityGroup,
                            Launch(cloud.securityGroup, LaunchTags(template, SaveLabel(backup)))]
                     + [WaitForInstance(cloud.launchedId)];
      match cloud.readyIp
      case None => Run(launch, Some(cloud.launchedId))
      case Some(ip) =>
        var file := BackupFileChoice(backup, cloud.objects);
        var lookup := if NeedsLookup(backup) then [LookupLatest(backup.value)] else [];
        var launched := LaunchedText(ip, Truthy(file), backup.GetOr(""));
        Run(launch + lookup + [FollowUp(launched), Setup(ip, file, VersionArg(version), AwsHostPrep),
                               FollowUp(RunningAtText(ip))],
            Some(cloud.launchedId))
  }

  /** `AwsProviderStrategy.stop`, and `commands/stop.js` after its deferral. */
  function AwsStopRun(cloud: Cloud, cached: Option<string>, nowMs: nat): Run {
    var probe := ProbeEffect(cached);
    match Resolve(cloud, cached)
    case Threw => Run([probe], cached)
    case NotFound => Run([probe, Reply(NoServerText)], cached)
    case Found(inst) =>
      var name := SaveNameChoice(None, inst.tags, nowMs);
      var saving := [probe, Reply(StoppingText(name))] + BackupEffects(inst.publicIp, name, true) + [Terminate(inst.id)];
      if cloud.terminates then Run(saving + [FollowUp(TerminatedText)], None) else Run(saving, cached)
  }

  /** `AwsProviderStrategy.save` (`rconFirst` false) and `commands/save.js` after its
      deferral (`rconFirst` true). Neither changes `state.instanceId`. */
  function SaveEffects(cloud: Cloud, input: Option<string>, nowMs: nat, rconFirst: bool): seq<Effect> {
    match cloud.running
    case None => [Discover, Reply(NoServerText)]
    case Some(inst) =>
      var name := SaveNameChoice(input, inst.tags, nowMs);
      var tagging := if Truthy(input) then [TagSaveName(inst.id, input.value)] else [];
      [Discover] + tagging + [Reply(SavingText(name))] + BackupEffects(inst.publicIp, name, rconFirst)
      + [FollowUp(SaveCompleteText)]
  }

  /** `commands/start.js`: the label is passed to `launchInstance` as given, and the
      latest archive of that name is looked up whenever a label is given. */
  function StartCommandRun(cloud: Cloud, template: seq<Tag>, saveLabel: Option<string>, cached: Option<string>): Run {
    var head := [Defer, Reply(CheckingText), Discover];
    if cloud.running.Some? then Run(head + [FollowUp(AlreadyRunningText)], cached)
    else
      var launch := head + [FollowUp(LaunchingText), EnsureSecurityGroup, Launch(cloud.securityGroup, LaunchTags(template, saveLabel))]
                     + [WaitForInstance(cloud.launchedId)];
      match cloud.readyIp
      case None => Run(launch, Some(cloud.launchedId))
      case Some(ip) =>
        var lookup := if Truthy(saveLabel) then [LookupLatest(saveLabel.value)] else [];
        var file := StartCommandFile(saveLabel, cloud.objects);
        Run(launch + lookup + [FollowUp(LaunchedPlainText(ip, Truthy(file))), Setup(ip, file, None, []),
                               FollowUp(RunningAtPlainText(ip))],
            Some(cloud.launchedId))
  }

  /** `commands/start.js`'s archive: the latest of the label's save, with no exact-key case. */
  function StartCommandFile(saveLabel: Option<string>, objects: seq<StoredObject>): Option<string> {
    if Truthy(saveLabel) then LatestBackupKey(objects, saveLabel.value) else None
  }

  /** `BareMetalProviderStrategy.start` on the fixed address `ip`. */
  function BareMetalStartEffects(ip: string, dockerPs: Option<string>, backup: Option<string>,
                                 version: Option<string>, objects: seq<StoredObject>): seq<Effect>
  {
    var head := [Reply(UsingServerText(ip)), CheckContainer(ip)];
    if ContainerRunning(dockerPs) then head + [FollowUp(AlreadyRunningText)]
    else
      var file := BackupFileChoice(backup, objects);
      var lookup := if NeedsLookup(backup) then [LookupLatest(backup.value)] else [];
      var announce := if Truthy(file) then RestoringText(backup.value) else InstallingText;
      head + lookup + [FollowUp(announce), Setup(ip, file, VersionArg(version), []), FollowUp(RunningAtText(ip))]
  }

  // ---------------------------------------------------------------------------
  // Properties of each handler

  /** `start` replies and runs discovery before anything else; an instance found ends
      it there, with nothing created and the state untouched; only when none is found
      does it create a security group and launch. */
  lemma AwsStartDiscoveryGate(cloud: Cloud, template: seq<Tag>, backup: Option<string>, version: Option<string>,
                              cached: Option<string>)
    ensures var r := AwsStartRun(cloud, template, backup, version, cached);
      |r.effects| >= 3 && r.effects[..2] == [Reply(CheckingText), Discover]
      && (cloud.running.Some? ==> r.effects[2..] == [FollowUp(AlreadyRunningText)] && r.instanceId == cached)
      && (cloud.running.Some? <==> forall e :: e in r.effects ==> !e.Launch? && !e.EnsureSecurityGroup?)
  {
    var r := AwsStartRun(cloud, template, backup, version, cached);
    if cloud.running.None? {
      assert r.effects[4].Launch?;
    }
  }

  /** A launch stores the new id in the state before waiting for the instance, so the
      id is kept when the wait fails, which then ends the command. */
  lemma AwsStartStoresIdBeforeWait(cloud: Cloud, template: seq<Tag>, backup: Option<string>, version: Option<string>,
                                   cached: Option<string>)
    requires cloud.running.None?
    ensures var r := AwsStartRun(cloud, template, backup, version, cached);
      r.instanceId == Some(cloud.launchedId)
      && |r.effects| >= 6
      && r.effects[4..6] == [Launch(cloud.securityGroup, LaunchTags(template, SaveLabel(backup))), WaitForInstance(cloud.launchedId)]
      && (cloud.readyIp.None? ==> |r.effects| == 6)
  {
    var r := AwsStartRun(cloud, template, backup, version, cached);
    var launch := [Reply(CheckingText), Discover, FollowUp(LaunchingText), EnsureSecurityGroup,
                   Launch(cloud.securityGroup, LaunchTags(template, SaveLabel(backup))),
                   WaitForInstance(cloud.launchedId)];
    assert r.effects[..6] == launch;
  }

  /** Setup runs only after a successful wait, on the ready address, with the chosen
      archive and version, followed by the final message. */
  lemma AwsStartSetup(cloud: Cloud, template: seq<Tag>, backup: Option<string>, version: Option<string>,
                      cached: Option<string>)
    ensures var r := AwsStartRun(cloud, template, backup, version, cached);
      forall e :: e in r.effects && e.Setup? ==>
        cloud.running.None? && cloud.readyIp.Some?
        && e == Setup(cloud.readyIp.value, BackupFileChoice(backup, cloud.objects), VersionArg(version), AwsHostPrep)
    ensures var r := AwsStartRun(cloud, template, backup, version, cached);
      cloud.running.None? && cloud.readyIp.Some? ==>
        r.effects[|r.effects| - 2..] == [Setup(cloud.readyIp.value, BackupFileChoice(backup, cloud.objects), VersionArg(version), AwsHostPrep),
                                         FollowUp(RunningAtText(cloud.readyIp.value))]
  {
  }

  /** The latest archive is looked up only for a bare save name, and then for that name. */
  lemma AwsStartLookup(cloud: Cloud, template: seq<Tag>, backup: Option<string>, version: Option<string>,
                       cached: Option<string>)
    ensures var r := AwsStartRun(cloud, template, backup, version, cached);
      forall e :: e in r.effects && e.LookupLatest? ==> NeedsLookup(backup) && e == LookupLatest(backup.value)
  {
    var r := AwsStartRun(cloud, template, backup, version, cached);
    if cloud.running.None? && cloud.readyIp.Some? {
      var ip := cloud.readyIp.value;
      var file := BackupFileChoice(backup, cloud.objects);
      var launch := [Reply(CheckingText), Discover]
                    + [FollowUp(LaunchingText), EnsureSecurityGroup, Launch(cloud.securityGroup, LaunchTags(template, SaveLabel(backup)))]
                    + [WaitForInstance(cloud.launchedId)];
      var lookup := if NeedsLookup(backup) then [LookupLatest(backup.value)] else [];
      var tail := [FollowUp(LaunchedText(ip, Truthy(file), backup.GetOr(""))), Setup(ip, file, VersionArg(version), AwsHostPrep),
                   FollowUp(RunningAtText(ip))];
      assert r.effects == launch + lookup + tail;
    }
  }

  /** `stop` describes the cached id when there is one and runs discovery otherwise; a
      describe that throws ends it, and with no instance it only replies. */
  lemma AwsStopResolution(cloud: Cloud, cached: Option<string>, nowMs: nat)
    ensures var r := AwsStopRun(cloud, cached, nowMs);
      |r.effects| >= 1 && r.effects[0] == (if cached.Some? then DescribeInstance(cached.value) else Discover)
      && (cached.Some? && cached.value !in cloud.described ==> r == Run([DescribeInstance(cached.value)], cached))
      && (cached.None? && cloud.running.None? ==> r == Run([Discover, Reply(NoServerText)], None))
  {
  }

  /** With an instance, `stop` announces the save name (tag, else clock), runs the RCON
      save and then the backup only when the instance has a public address, and
      terminates it. */
  lemma AwsStopSaves(cloud: Cloud, cached: Option<string>, nowMs: nat)
    requires Resolve(cloud, cached).Found?
    ensures var r := AwsStopRun(cloud, cached, nowMs);
      var inst := Resolve(cloud, cached).inst;
      var name := SaveNameChoice(None, inst.tags, nowMs);
      |r.effects| >= 3 && r.effects[1] == Reply(StoppingText(name))
      && (Truthy(inst.publicIp) ==> r.effects[2..4] == [RconSave(inst.publicIp.value), RunBackup(inst.publicIp.value, name, false)])
      && (!Truthy(inst.publicIp) ==> forall e :: e in r.effects ==> !e.RconSave? && !e.RunBackup?)
      && Terminate(inst.id) in r.effects
  {
  }

  /** The state is cleared only by a `stop` that terminated the resolved instance, and
      always by one that did, after the terminate. */
  lemma AwsStopTerminateThenClear(cloud: Cloud, cached: Option<string>, nowMs: nat)
    ensures var r := AwsStopRun(cloud, cached, nowMs);
      (r.instanceId != cached ==> r.instanceId.None? && cloud.terminates && Resolve(cloud, cached).Found?)
      && (Resolve(cloud, cached).Found? && cloud.terminates ==>
            r.instanceId.None?
            && r.effects[|r.effects| - 2..] == [Terminate(Resolve(cloud, cached).inst.id), FollowUp(TerminatedText)])
      && (Resolve(cloud, cached).Found? && !cloud.terminates ==>
            r.instanceId == cached && r.effects[|r.effects| - 1] == Terminate(Resolve(cloud, cached).inst.id))
  {
    var r := AwsStopRun(cloud, cached, nowMs);
    if Resolve(cloud, cached).Found? {
      assert |r.effects| >= 3;
    }
  }

  /** `save` with no instance only replies; with one it tags the instance exactly when a
      name is given, and announces the chosen name. */
  lemma SaveTagging(cloud: Cloud, input: Option<string>, nowMs: nat, rconFirst: bool)
    ensures var es := SaveEffects(cloud, input, nowMs, rconFirst);
      es[0] == Discover
      && (cloud.running.None? ==> es == [Discover, Reply(NoServerText)])
      && ((exists e :: e in es && e.TagSaveName?) <==> cloud.running.Some? && Truthy(input))
      && (forall e :: e in es && e.TagSaveName? ==> e == TagSaveName(cloud.running.value.id, input.value))
      && (cloud.running.Some? ==>
            Reply(SavingText(SaveNameChoice(input, cloud.running.value.tags, nowMs))) in es
            && es[|es| - 1] == FollowUp(SaveCompleteText))
  {
    var es := SaveEffects(cloud, input, nowMs, rconFirst);
    if cloud.running.Some? && Truthy(input) {
      assert es[1].TagSaveName?;
    }
  }

  /** `save` backs up only with a public address, after an RCON save only when
      `rconFirst`, and never terminates or launches. */
  lemma SaveBackupRules(cloud: Cloud, input: Option<string>, nowMs: nat, rconFirst: bool)
    ensures var es := SaveEffects(cloud, input, nowMs, rconFirst);
      (forall e :: e in es && (e.RconSave? || e.RunBackup?) ==>
         cloud.running.Some? && Truthy(cloud.running.value.publicIp))
      && (forall e :: e in es && e.RconSave? ==> rconFirst)
      && (forall e :: e in es ==> !e.Terminate? && !e.Launch?)
  {
  }

  /** `commands/start.js` has the same discovery gate, and stores the launched id before
      the wait. */
  lemma StartCommandGate(cloud: Cloud, template: seq<Tag>, saveLabel: Option<string>, cached: Option<string>)
    ensures var r := StartCommandRun(cloud, template, saveLabel, cached);
      |r.effects| >= 4 && r.effects[..3] == [Defer, Reply(CheckingText), Discover]
      && (cloud.running.Some? ==> r.effects[3..] == [FollowUp(AlreadyRunningText)] && r.instanceId == cached)
      && (cloud.running.Some? <==> forall e :: e in r.effects ==> !e.Launch?)
      && (cloud.running.None? ==>
            r.instanceId == Some(cloud.launchedId) && |r.effects| >= 7
            && r.effects[5..7] == [Launch(cloud.securityGroup, LaunchTags(template, saveLabel)), WaitForInstance(cloud.launchedId)])
  {
    var r := StartCommandRun(cloud, template, saveLabel, cached);
    if cloud.running.None? {
      assert r.effects[5].Launch?;
    }
  }

  /** `commands/start.js` looks up the latest archive exactly when a label is given and
      the instance came up, and sets up with that archive. */
  lemma StartCommandLookup(cloud: Cloud, template: seq<Tag>, saveLabel: Option<string>, cached: Option<string>)
    ensures var r := StartCommandRun(cloud, template, saveLabel, cached);
      ((exists e :: e in r.effects && e.LookupLatest?) <==> cloud.running.None? && cloud.readyIp.Some? && Truthy(saveLabel))
      && (forall e :: e in r.effects && e.Setup? ==>
            cloud.running.None? && cloud.readyIp.Some?
            && e == Setup(cloud.readyIp.value, StartCommandFile(saveLabel, cloud.objects), None, []))
  {
    var r := StartCommandRun(cloud, template, saveLabel, cached);
    if cloud.running.None? && cloud.readyIp.Some? && Truthy(saveLabel) {
      assert r.effects[7].LookupLatest?;
    }
  }

  /** The bare-metal `start` checks the container on its fixed address; a running one
      ends the command, otherwise (a failed check included) setup runs on that address
      with the chosen archive. It never launches, waits for or terminates a host. */
  lemma BareMetalStartRules(ip: string, dockerPs: Option<string>, backup: Option<string>,
                            version: Option<string>, objects: seq<StoredObject>)
    ensures var es := BareMetalStartEffects(ip, dockerPs, backup, version, objects);
      |es| >= 3 && es[..2] == [Reply(UsingServerText(ip)), CheckContainer(ip)]
      && (ContainerRunning(dockerPs) ==> es[2..] == [FollowUp(AlreadyRunningText)])
      && (!ContainerRunning(dockerPs) ==>
            es[|es| - 2..] == [Setup(ip, BackupFileChoice(backup, objects), VersionArg(version), []), FollowUp(RunningAtText(ip))])
      && ((exists e :: e in es && e.Setup?) <==> !ContainerRunning(dockerPs))
      && (forall e :: e in es ==> !e.Launch? && !e.Terminate? && !e.EnsureSecurityGroup? && !e.WaitForInstance?)
  {
    var es := BareMetalStartEffects(ip, dockerPs, backup, version, objects);
    if !ContainerRunning(dockerPs) {
      assert es[|es| - 2].Setup?;
    }
  }

  // ---------------------------------------------------------------------------
  // Properties that span handlers

  /** A server launched with a truthy label is stopped under that label; without one it
      is stopped under the clock's name, provided the template has no `SaveName` tag. */
  lemma LaunchLabelIsStopName(template: seq<Tag>, saveLabel: Option<string>, nowMs: nat)
    requires forall i :: 0 <= i < |template| ==> template[i].key != SaveNameKey
    ensures Truthy(saveLabel) ==> SaveNameChoice(None, LaunchTags(template, saveLabel), nowMs) == saveLabel.value
    ensures !Truthy(saveLabel) ==> SaveNameChoice(None, LaunchTags(template, saveLabel), nowMs) == TimestampName(nowMs)
  {
    var tags := LaunchTags(template, saveLabel);
    if Truthy(saveLabel) {
      assert tags[|template|].key == SaveNameKey;
      var found := FindSaveName(tags);
      var i :| 0 <= i < |tags| && tags[i] == Tag(SaveNameKey, found.value)
               && forall j :: 0 <= j < i ==> tags[j].key != SaveNameKey;
      assert i == |template|;
    }
  }

  /** The archive a start restores and the label it tags the instance with agree: when
      the archive parses, the label is its save name. */
  lemma RestoredArchiveMatchesLabel(backup: Option<string>, objects: seq<StoredObject>)
    requires BackupFileChoice(backup, objects).Some?
    requires ParseBackupKey(BackupFileChoice(backup, objects).value).Some?
    ensures SaveLabel(backup) == Some(ParseBackupKey(BackupFileChoice(backup, objects).value).value.name)
  {
  }

  /** Restoring an archive of save `b.name` and then stopping writes a new archive that
      parses back to the same save name, dated the day of the stop. */
  lemma RestoreThenStopKeepsName(template: seq<Tag>, key: string, b: BackupRef, nowMs: nat, today: CalendarDate)
    requires forall i :: 0 <= i < |template| ==> template[i].key != SaveNameKey
    requires ParseBackupKey(key) == Some(b) && b.name != ""
    requires FourDigitYear(today)
    ensures var name := SaveNameChoice(None, LaunchTags(template, SaveLabel(Some(key))), nowMs);
      name == b.name && ParseBackupKey(BackupFilename(name, today)) == Some(BackupRef(b.name, DateStamp(today)))
  {
    assert SaveLabel(Some(key)) == Some(b.name);
    LaunchLabelIsStopName(template, Some(b.name), nowMs);
    ParseBackupFilename(b.name, today);
  }

  /** `CreateTags` of one tag: any tag with the same key is replaced. */
  function Retag(tags: seq<Tag>, t: Tag): (r: seq<Tag>)
    ensures |r| >= 1 && r[|r| - 1] == t
    ensures forall i :: 0 <= i < |r| - 1 ==> r[i].key != t.key && r[i] in tags
  {
    if tags == [] then [t]
    else if tags[0].key == t.key then Retag(tags[1..], t)
    else [tags[0]] + Retag(tags[1..], t)
  }

  /** A name given to `save` is the name a later `stop` of that instance saves under. */
  lemma {:induction false} SaveTagIsStopName(tags: seq<Tag>, name: string, nowMs: nat)
    ensures SaveNameChoice(None, Retag(tags, Tag(SaveNameKey, name)), nowMs) == name
  {
    var r := Retag(tags, Tag(SaveNameKey, name));
    var found := FindSaveName(r);
    assert r[|r| - 1].key == SaveNameKey;
    var i :| 0 <= i < |r| && r[i] == Tag(SaveNameKey, found.value)
             && forall j :: 0 <= j < i ==> r[j].key != SaveNameKey;
    assert i == |r| - 1;
  }

  // ---------------------------------------------------------------------------
  // The shared state and the handlers as the bot runs them

  /** The bot process: the shared `state.instanceId`, the configured template tags, and
      the log of every call made so far. */
  class ControlPlane {
    const template: seq<Tag>
    var instanceId: Option<string>
    var log: seq<Effect>

    constructor(template: seq<Tag>)
      ensures this.template == template && instanceId == None && log == []
    {
      this.template := template;
      instanceId := None;
      log := [];
    }

    /** `AwsProviderStrategy.start`. */
    method AwsStart(cloud: Cloud, backup: Option<string>, version: Option<string>)
      modifies this
      ensures var r := AwsStartRun(cloud, template, backup, version, old(instanceId));
        log == old(log) + r.effects && instanceId == r.instanceId
    {
      var sent := [Reply(CheckingText), Discover];
      if cloud.running.Some? {
        log := log + (sent + [FollowUp(AlreadyRunningText)]);
        return;
      }
      var saveLabel := SaveLabel(backup);
      sent := sent + [FollowUp(LaunchingText), EnsureSecurityGroup,
                      Launch(cloud.securityGroup, LaunchTags(template, saveLabel))];
      instanceId := Some(cloud.launchedId);
      sent := sent + [WaitForInstance(cloud.launchedId)];
      if cloud.readyIp.None? {
        log := log + sent;
        return;
      }
      var ip := cloud.readyIp.value;
      if NeedsLookup(backup) {
        sent := sent + [LookupLatest(backup.value)];
      }
      var backupFile := BackupFileChoice(backup, cloud.objects);
      sent := sent + [FollowUp(LaunchedText(ip, Truthy(backupFile), backup.GetOr(""))),
                      Setup(ip, backupFile, VersionArg(version), AwsHostPrep), FollowUp(RunningAtText(ip))];
      log := log + sent;
    }

    /** `AwsProviderStrategy.stop`. */
    method AwsStop(cloud: Cloud, nowMs: nat)
      modifies this
      ensures var r := AwsStopRun(cloud, old(instanceId), nowMs);
        log == old(log) + r.effects && instanceId == r.instanceId
    {
      var sent := [ProbeEffect(instanceId)];
      var found := Resolve(cloud, instanceId);
      if found.Threw? {
        log := log + sent;
        return;
      }
      if found.NotFound? {
        log := log + (sent + [Reply(NoServerText)]);
        return;
      }
      var inst := found.inst;
      var name := SaveNameChoice(None, inst.tags, nowMs);
      sent := sent + [Reply(StoppingText(name))] + BackupEffects(inst.publicIp, name, true) + [Terminate(inst.id)];
      if !cloud.terminates {
        log := log + sent;
        return;
      }
      instanceId := None;
      log := log + (sent + [FollowUp(TerminatedText)]);
    }

    /** `AwsProviderStrategy.save`: no RCON save before the backup. */
    method AwsSave(cloud: Cloud, name: Option<string>, nowMs: nat)
      modifies this
      ensures log == old(log) + SaveEffects(cloud, name, nowMs, false) && instanceId == old(instanceId)
    {
      SaveWith(cloud, name, nowMs, false);
    }

    /** `commands/stop.js`: defer, then the same steps as the strategy's `stop`. */
    method StopCommand(cloud: Cloud, nowMs: nat)
      modifies this
      ensures var r := AwsStopRun(cloud, old(instanceId), nowMs);
        log == old(log) + [Defer] + r.effects && instanceId == r.instanceId
    {
      log := log + [Defer];
      AwsStop(cloud, nowMs);
    }

    /** `commands/save.js`: defer, then save with an RCON save before the backup. */
    method SaveCommand(cloud: Cloud, name: Option<string>, nowMs: nat)
      modifies this
      ensures log == old(log) + [Defer] + SaveEffects(cloud, name, nowMs, true) && instanceId == old(instanceId)
    {
      log := log + [Defer];
      SaveWith(cloud, name, nowMs, true);
    }

    method SaveWith(cloud: Cloud, input: Option<string>, nowMs: nat, rconFirst: bool)
      modifies this
      ensures log == old(log) + SaveEffects(cloud, input, nowMs, rconFirst) && instanceId == old(instanceId)
    {
      var sent := [Discover];
      if cloud.running.None? {
        log := log + (sent + [Reply(NoServerText)]);
        return;
      }
      var inst := cloud.running.value;
      var name := SaveNameChoice(input, inst.tags, nowMs);
      if Truthy(input) {
        sent := sent + [TagSaveName(inst.id, input.value)];
      }
      sent := sent + [Reply(SavingText(name))] + BackupEffects(inst.publicIp, name, rconFirst) + [FollowUp(SaveCompleteText)];
      log := log + sent;
    }

    /** `commands/start.js`. */
    method StartCommand(cloud: Cloud, saveLabel: Option<string>)
      modifies this
      ensures var r := StartCommandRun(cloud, template, saveLabel, old(instanceId));
        log == old(log) + r.effects && instanceId == r.instanceId
    {
      var sent := [Defer, Reply(CheckingText), Discover];
      if cloud.running.Some? {
        log := log + (sent + [FollowUp(AlreadyRunningText)]);
        return;
      }
      sent := sent + [FollowUp(LaunchingText), EnsureSecurityGroup, Launch(cloud.securityGroup, LaunchTags(template, saveLabel))];
      instanceId := Some(cloud.launchedId);
      sent := sent + [WaitForInstance(cloud.launchedId)];
      if cloud.readyIp.None? {
        log := log + sent;
        return;
      }
      var ip := cloud.readyIp.value;
      var backupFile: Option<string> := None;
      if Truthy(saveLabel) {
        sent := sent + [LookupLatest(saveLabel.value)];
        backupFile := LatestBackupKey(cloud.objects, saveLabel.value);
      }
      sent := sent + [FollowUp(LaunchedPlainText(ip, Truthy(backupFile))), Setup(ip, backupFile, None, []),
                      FollowUp(RunningAtPlainText(ip))];
      log := log + sent;
    }
  }

  /** `BareMetalProviderStrategy`: one fixed host, no instance state. */
  class BareMetalStrategy {
    const ip: string
    var log: seq<Effect>

    constructor(ip: string)
      ensures this.ip == ip && log == []
    {
      this.ip := ip;
      log := [];
    }

    method Start(dockerPs: Option<string>, backup: Option<string>, version: Option<string>, objects: seq<StoredObject>)
      modifies this
      ensures log == old(log) + BareMetalStartEffects(ip, dockerPs, backup, version, objects)
    {
      var sent := [Reply(UsingServerText(ip)), CheckContainer(ip)];
      if ContainerRunning(dockerPs) {
        log := log + (sent + [FollowUp(AlreadyRunningText)]);
        return;
      }
      if NeedsLookup(backup) {
        sent := sent + [LookupLatest(backup.value)];
      }
      var backupFile := BackupFileChoice(backup, objects);
      var announce := if Truthy(backupFile) then RestoringText(backup.value) else InstallingText;
      sent := sent + [FollowUp(announce), Setup(ip, backupFile, VersionArg(version), []), FollowUp(RunningAtText(ip))];
      assert sent == BareMetalStartEffects(ip, dockerPs, backup, version, objects);
      log := log + sent;
    }

    /** The save is named by the clock; the RCON save comes before the backup, and the
        backup command also stops the container. */
    method Stop(nowMs: nat)
      modifies this
      ensures log == old(log) + [Reply(StoppingText(TimestampName(nowMs))), RconSave(ip),
                                 RunBackup(ip, TimestampName(nowMs), true), FollowUp(StoppedText)]
    {
      var name := TimestampName(nowMs);
      log := log + [Reply(StoppingText(name))];
      log := log + [RconSave(ip)];
      log := log + [RunBackup(ip, name, true)];
      log := log + [FollowUp(StoppedText)];
    }

    /** The given name when truthy, else the clock's; no RCON save. */
    method Save(name: Option<string>, nowMs: nat)
      modifies this
      ensures var n := SaveNameChoice(name, [], nowMs);
        log == old(log) + [Reply(SavingText(n)), RunBackup(ip, n, false), FollowUp(SaveCompleteText)]
      ensures Truthy(name) ==> log[|log| - 2] == RunBackup(ip, name.value, false)
      ensures !Truthy(name) ==> log[|log| - 2] == RunBackup(ip, TimestampName(nowMs), false)
    {
      var saveName := if Truthy(name) then name.value else TimestampName(nowMs);
      log := log + [Reply(SavingText(saveName))];
      log := log + [RunBackup(ip, saveName, false)];
      log := log + [FollowUp(SaveCompleteText)];
    }
  }
}
