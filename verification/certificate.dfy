/**
 * Certificate bootstrap: `ensureCert()` in panel.freecloud.ltd/hysteria.js.
 * The synchronous `openssl` run is an input: either it succeeds, having
 * written the key and the certificate, or `execSync` throws with an error
 * code and a message.  openssl writes the private key before it signs, so a
 * run that fails may already have left `key.pem` behind; `ensureCert` does
 * not clean it up.
 */
module Certificate {
  import opened Wrappers
  import opened Files

  const CERT_FILE: string := "cert.pem"
  const KEY_FILE: string := "key.pem"

  /** The words of the self-signing command: an EC key on prime256v1, ten years, CN=localhost. */
  const OPENSSL_ARGS: seq<string> := [
    "openssl", "req", "-x509", "-nodes", "-newkey", "ec",
    "-pkeyopt", "ec_paramgen_curve:prime256v1", "-days", "3650",
    "-keyout", KEY_FILE, "-out", CERT_FILE, "-subj", "/CN=localhost"
  ]

  /** `cmd.join(' ')`. */
  function JoinWords(words: seq<string>): string
  {
    if words == [] then ""
    else if |words| == 1 then words[0]
    else words[0] + " " + JoinWords(words[1..])
  }

  function OpensslCommand(): string
  {
    JoinWords(OPENSSL_ARGS)
  }

  /** What the synchronous run of the command reports. */
  datatype Exec =
    | ExecOk(certificate: string, privateKey: string)
    | ExecError(code: string, message: string, keyWritten: Option<string>)

  datatype CertError = ToolNotFound(message: string) | GenerationFailed(message: string)

  datatype CertOutcome = CertReady | CertFailed(error: CertError)

  /** Generation is skipped only when both files are present. */
  predicate NeedsGeneration(files: map<string, Entry>)
  {
    !(CERT_FILE in files && KEY_FILE in files)
  }

  /**
   * The catch block: an `ENOENT` code means the tool is missing; anything
   * else is a failed run.  `execSync` runs the command through a shell, so a
   * missing `openssl` usually surfaces as the shell's exit status 127 with no
   * `ENOENT` code, and is classed as a failed run; `ToolNotFound` is the
   * branch as the code writes it, reached only when the shell itself cannot
   * be started.
   */
  function Classify(code: string, message: string): CertError
  {
    if code == "ENOENT" then ToolNotFound(message) else GenerationFailed(message)
  }

  /**
   * `ensureCert()`: returns how it settled and the commands it ran.  No
   * command runs when both files exist; otherwise exactly the openssl command
   * runs once, and the promise settles by the command's result.
   */
  method EnsureCert(disk: Disk, exec: Exec) returns (outcome: CertOutcome, commands: seq<string>)
    modifies disk
    ensures commands == [] <==> !NeedsGeneration(old(disk.files))
    ensures commands != [] ==> commands == [OpensslCommand()]
    ensures !NeedsGeneration(old(disk.files)) ==> outcome == CertReady && disk.files == old(disk.files)
    ensures NeedsGeneration(old(disk.files)) && exec.ExecOk? ==>
      && outcome == CertReady
      && CERT_FILE in disk.files && disk.files[CERT_FILE].content == exec.certificate
      && KEY_FILE in disk.files && disk.files[KEY_FILE].content == exec.privateKey
      && disk.files - {CERT_FILE, KEY_FILE} == old(disk.files) - {CERT_FILE, KEY_FILE}
    ensures NeedsGeneration(old(disk.files)) && exec.ExecError? ==>
      && outcome == CertFailed(Classify(exec.code, exec.message))
      && (exec.keyWritten.None? ==> disk.files == old(disk.files))
      && (exec.keyWritten.Some? ==>
            KEY_FILE in disk.files && disk.files[KEY_FILE].content == exec.keyWritten.value &&
            disk.files - {KEY_FILE} == old(disk.files) - {KEY_FILE})
    ensures disk.files - {CERT_FILE, KEY_FILE} == old(disk.files) - {CERT_FILE, KEY_FILE}
    ensures outcome == CertReady ==> !NeedsGeneration(disk.files)
  {
    if disk.Exists(CERT_FILE) && disk.Exists(KEY_FILE) {
      return CertReady, [];
    }
    commands := [OpensslCommand()];
    match exec {
      case ExecOk(certificate, privateKey) =>
        // what the command itself writes (-keyout, then -out)
        disk.WriteFile(KEY_FILE, privateKey);
        disk.WriteFile(CERT_FILE, certificate);
        assert disk.files - {CERT_FILE, KEY_FILE} == old(disk.files) - {CERT_FILE, KEY_FILE};
        outcome := CertReady;
      case ExecError(code, message, keyWritten) =>
        // a key written before the run failed stays on disk
        if keyWritten.Some? {
          disk.WriteFile(KEY_FILE, keyWritten.value);
          assert disk.files - {KEY_FILE} == old(disk.files) - {KEY_FILE};
        }
        outcome := CertFailed(Classify(code, message));
    }
  }
}
