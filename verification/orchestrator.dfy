/**
 * The deployment run: `main()` in panel.freecloud.ltd/hysteria.js.  The
 * architecture guard, then the download, the certificate and the
 * configuration, the address lookup and finally the spawned server, whose
 * events decide how the orchestrator ends.  A rejected step is caught and
 * exits with status 1, as does a crash inside the download; a download or
 * an address lookup that never settles leaves nothing to wait for, and the
 * process ends with status 0.
 */
module Orchestrator {
  import opened Wrappers
  import opened Architecture
  import opened Files
  import Provisioner
  import Certificate
  import ConfigEmitter
  import PublicAddress
  import Supervisor

  const SERVER_ARGS: seq<string> := ["server", "-c", "server.yaml"]

  /** Everything outside the script: the host, the working directory and how each external call ends. */
  datatype Environment = Environment(
    host: string,
    cwd: string,
    downloads: seq<Provisioner.Attempt>,
    openssl: Certificate.Exec,
    lookup: PublicAddress.Lookup,
    events: seq<Supervisor.ChildEvent>)

  /**
   * What a run did: its exit status (None while the server still runs), the
   * URLs requested, the commands run, the spawned command line, the address
   * found and the signals forwarded to the child.
   */
  datatype Report = Report(
    exitCode: Option<int>,
    requests: seq<string>,
    commands: seq<string>,
    launched: Option<seq<string>>,
    serverIP: Option<string>,
    relayed: seq<string>)

  const REFUSED: Report := Report(Some(1), [], [], None, None, [])

  /** The spawned command line: the resolved binary with `server -c server.yaml`. */
  function LaunchCommand(cwd: string, arch: Arch): seq<string>
  {
    [ConfigEmitter.ResolvePath(cwd, Provisioner.BinName(arch))] + SERVER_ARGS
  }

  /** The awaited steps all resolve: the download resolved and the certificate is ready. */
  predicate Prepared(files: map<string, Entry>, createMode: bv32, env: Environment, arch: Arch)
    requires |env.downloads| > Provisioner.RETRIES
  {
    var dl := Provisioner.Download(files, createMode, env.host, Provisioner.BinName(arch), env.downloads);
    dl.settled.Resolved? && (!Certificate.NeedsGeneration(dl.files) || env.openssl.ExecOk?)
  }

  /** The server is started only when the steps resolved and the address lookup settled. */
  predicate Launches(files: map<string, Entry>, createMode: bv32, env: Environment, arch: Arch)
    requires |env.downloads| > Provisioner.RETRIES
  {
    Prepared(files, createMode, env, arch) && !env.lookup.Cut?
  }

  /** The configuration every run writes for the working directory `cwd`. */
  function ExpectedConfig(cwd: string): string
  {
    ConfigEmitter.RenderConfig(ConfigEmitter.SERVER_PORT,
                               ConfigEmitter.ResolvePath(cwd, Certificate.CERT_FILE),
                               ConfigEmitter.ResolvePath(cwd, Certificate.KEY_FILE),
                               ConfigEmitter.AUTH_PASSWORD)
  }

  /** Everything the server needs is on disk: the binary, the certificate, the key and the configuration. */
  predicate ReadyToLaunch(files: map<string, Entry>, cwd: string, arch: Arch)
  {
    && Provisioner.BinName(arch) in files
    && Certificate.CERT_FILE in files && Certificate.KEY_FILE in files
    && ConfigEmitter.CONFIG_FILE in files
    && files[ConfigEmitter.CONFIG_FILE].content == ExpectedConfig(cwd)
  }

  /** The binary's name is neither the certificate, the key nor the configuration. */
  lemma FileNamesDistinct(arch: Arch)
    ensures Provisioner.BinName(arch) !in {Certificate.CERT_FILE, Certificate.KEY_FILE, ConfigEmitter.CONFIG_FILE}
    ensures ConfigEmitter.CONFIG_FILE !in {Certificate.CERT_FILE, Certificate.KEY_FILE}
  {
    var bin := Provisioner.BinName(arch);
    assert bin[0] == 'h';
  }

  /** The files a run may write: the binary, the certificate, the key and the configuration. */
  function Touched(arch: Arch): set<string>
  {
    {Provisioner.BinName(arch), Certificate.CERT_FILE, Certificate.KEY_FILE, ConfigEmitter.CONFIG_FILE}
  }

  /** Two maps that agree outside `s` agree outside any larger set. */
  lemma Widen(a: map<string, Entry>, b: map<string, Entry>, s: set<string>, t: set<string>)
    requires a - s == b - s && s <= t
    ensures a - t == b - t
  {
    forall p | p in a - t
      ensures p in b - t && (a - t)[p] == (b - t)[p]
    {
      assert p in a - s;
    }
    forall p | p in b - t
      ensures p in a - t
    {
      assert p in b - s;
    }
  }

  /** `writeConfig()` once the binary and the certificate are in place: all four files are then present. */
  method WriteServerConfig(disk: Disk, cwd: string, arch: Arch)
    requires Provisioner.BinName(arch) in disk.files
    requires Certificate.CERT_FILE in disk.files && Certificate.KEY_FILE in disk.files
    modifies disk
    ensures ReadyToLaunch(disk.files, cwd, arch)
    ensures disk.files - {ConfigEmitter.CONFIG_FILE} == old(disk.files) - {ConfigEmitter.CONFIG_FILE}
  {
    FileNamesDistinct(arch);
    ghost var before := disk.files;
    ConfigEmitter.WriteConfig(disk, cwd);
    assert Provisioner.BinName(arch) in before - {ConfigEmitter.CONFIG_FILE};
    assert Certificate.CERT_FILE in before - {ConfigEmitter.CONFIG_FILE};
    assert Certificate.KEY_FILE in before - {ConfigEmitter.CONFIG_FILE};
  }

  /** The status the process ends with when the download does not resolve. */
  function DownloadExit(settled: Provisioner.Settled): int
  {
    if settled.Pending? then 0 else 1
  }

  /**
   * The awaited steps of `main()` for a resolved architecture: download,
   * certificate, configuration.  `stopped` is the exit status when a step
   * did not resolve, and None when the server can be launched.
   */
  method Prepare(disk: Disk, env: Environment, arch: Arch)
    returns (stopped: Option<int>, requests: seq<string>, commands: seq<string>)
    requires |env.downloads| > Provisioner.RETRIES
    requires ArchName(env.host) == Some(arch)
    modifies disk
    ensures requests == Provisioner.Download(old(disk.files), disk.createMode, env.host,
                                             Provisioner.BinName(arch), env.downloads).requests
    ensures stopped.None? <==> Prepared(old(disk.files), disk.createMode, env, arch)
    ensures stopped.None? ==> ReadyToLaunch(disk.files, env.cwd, arch)
    ensures stopped.Some? ==> stopped.value == DownloadExit(Provisioner.Download(
      old(disk.files), disk.createMode, env.host, Provisioner.BinName(arch), env.downloads).settled)
    ensures disk.files - Touched(arch) == old(disk.files) - Touched(arch)
    ensures var dl := Provisioner.Download(old(disk.files), disk.createMode, env.host,
                                           Provisioner.BinName(arch), env.downloads);
      && (!dl.settled.Resolved? ==> disk.files == dl.files && commands == [])
      && (dl.settled.Resolved? ==>
            commands == if Certificate.NeedsGeneration(dl.files) then [Certificate.OpensslCommand()] else [])
      && (stopped.None? ==> disk.files[Provisioner.BinName(arch)] == dl.files[Provisioner.BinName(arch)])
  {
    var binFile := Provisioner.BinName(arch);
    ghost var start := disk.files;
    if binFile !in disk.files {
      Provisioner.DownloadOutcome(disk.files, disk.createMode, env.host, binFile, env.downloads);
    }
    var settled;
    settled, requests := Provisioner.DownloadBinary(disk, env.host, binFile, env.downloads);
    ghost var downloaded := disk.files;
    assert downloaded - {binFile} == start - {binFile};
    Widen(downloaded, start, {binFile}, Touched(arch));
    if !settled.Resolved? {
      return Some(DownloadExit(settled)), requests, [];
    }
    FileNamesDistinct(arch);
    assert binFile in downloaded - {Certificate.CERT_FILE, Certificate.KEY_FILE};

    var cert;
    cert, commands := Certificate.EnsureCert(disk, env.openssl);
    ghost var certified := disk.files;
    Widen(certified, downloaded, {Certificate.CERT_FILE, Certificate.KEY_FILE}, Touched(arch));
    assert certified[binFile] == (certified - {Certificate.CERT_FILE, Certificate.KEY_FILE})[binFile];
    if cert.CertFailed? {
      return Some(1), requests, commands;
    }
    WriteServerConfig(disk, env.cwd, arch);
    Widen(disk.files, certified, {ConfigEmitter.CONFIG_FILE}, Touched(arch));
    assert binFile in certified - {ConfigEmitter.CONFIG_FILE};
    assert disk.files[binFile] == (disk.files - {ConfigEmitter.CONFIG_FILE})[binFile];
    stopped := None;
  }

  /** `main()`. */
  method Deploy(disk: Disk, env: Environment) returns (report: Report)
    requires |env.downloads| > Provisioner.RETRIES
    modifies disk
    ensures ArchName(env.host).None? ==> report == REFUSED && disk.files == old(disk.files)
    ensures ArchName(env.host).Some? ==>
      var arch := ArchName(env.host).value;
      var dl := Provisioner.Download(old(disk.files), disk.createMode, env.host,
                                     Provisioner.BinName(arch), env.downloads);
      && (report.launched.Some? <==> Launches(old(disk.files), disk.createMode, env, arch))
      && |dl.requests| <= |report.requests| && report.requests[..|dl.requests|] == dl.requests
      && (Prepared(old(disk.files), disk.createMode, env, arch) ==>
            report.requests == dl.requests + [PublicAddress.LOOKUP_URL])
      && (!Prepared(old(disk.files), disk.createMode, env, arch) ==> report.requests == dl.requests)
      && report.commands == (if dl.settled.Resolved? && Certificate.NeedsGeneration(dl.files)
                             then [Certificate.OpensslCommand()] else [])
      && disk.files - Touched(arch) == old(disk.files) - Touched(arch)
      && (report.launched.None? ==>
            && report.serverIP.None?
            && report.exitCode == Some(if Prepared(old(disk.files), disk.createMode, env, arch) then 0
                                       else DownloadExit(dl.settled)))
      && (report.launched.Some? ==>
            && report.launched == Some(LaunchCommand(env.cwd, arch))
            && report.serverIP == PublicAddress.ServerAddress(env.lookup)
            && report.exitCode == Supervisor.Supervise(env.events).exit
            && report.relayed == Supervisor.Supervise(env.events).relayed
            && ReadyToLaunch(disk.files, env.cwd, arch))
  {
    var archOpt := ArchName(env.host);
    if archOpt.None? {
      return REFUSED;
    }
    var arch := archOpt.value;
    var stopped, requests, commands := Prepare(disk, env, arch);
    if stopped.Some? {
      return Report(stopped, requests, commands, None, None, []);
    }
    var ip := PublicAddress.GetServerIP(env.lookup);
    if ip.None? {
      // the lookup never settles: nothing is spawned and the event loop drains
      return Report(Some(0), requests + [PublicAddress.LOOKUP_URL], commands, None, None, []);
    }
    var command := LaunchCommand(env.cwd, arch);
    var supervision := Supervisor.Supervise(env.events);
    report := Report(supervision.exit, requests + [PublicAddress.LOOKUP_URL], commands,
                     Some(command), ip, supervision.relayed);
  }
}
