/**
 * Configuration rendering: `writeConfig()` in panel.freecloud.ltd/hysteria.js.
 * The template is a fixed sequence of lines, each ending in a newline, with
 * the port, the two resolved paths and the password interpolated.
 */
module ConfigEmitter {
  import opened Text
  import opened Files
  import Certificate

  const SERVER_PORT: nat := 22222
  const AUTH_PASSWORD: string := "20250922"
  const CONFIG_FILE: string := "server.yaml"

  /** `path.resolve(name)` for a plain file name against the absolute working directory `cwd`. */
  function ResolvePath(cwd: string, name: string): string
  {
    if |cwd| > 0 && cwd[|cwd| - 1] == '/' then cwd + name else cwd + "/" + name
  }

  function ListenLine(port: nat): string { "listen: \":" + DecimalString(port) + "\"" }
  function CertLine(certPath: string): string { "  cert: \"" + certPath + "\"" }
  function KeyLine(keyPath: string): string { "  key: \"" + keyPath + "\"" }
  function PasswordLine(password: string): string { "  password: \"" + password + "\"" }

  // The fixed QUIC settings chosen for low memory; a trailing comment is a separate literal.
  const IDLE_TIMEOUT_LINE: string := "  max_idle_timeout: \"10s\""
  const STREAMS_LINE: string := "  max_concurrent_streams: 4"
  const STREAM_WINDOW_LINE: string := "  initial_stream_receive_window: 65536" + "        # 64 KB"
  const MAX_STREAM_WINDOW_LINE: string := "  max_stream_receive_window: 131072" + "           # 128 KB"
  const CONN_WINDOW_LINE: string := "  initial_conn_receive_window: 131072" + "         # 128 KB"
  const MAX_CONN_WINDOW_LINE: string := "  max_conn_receive_window: 262144" + "             # 256 KB"

  /** The lines of the template, without their newlines. */
  function ConfigLines(port: nat, certPath: string, keyPath: string, password: string): seq<string>
  {
    [ ListenLine(port),
      "tls:",
      CertLine(certPath),
      KeyLine(keyPath),
      "auth:",
      "  type: \"password\"",
      PasswordLine(password),
      "bandwidth:",
      "  up: \"200mbps\"",
      "  down: \"200mbps\"",
      "quic:",
      IDLE_TIMEOUT_LINE,
      STREAMS_LINE,
      STREAM_WINDOW_LINE,
      MAX_STREAM_WINDOW_LINE,
      CONN_WINDOW_LINE,
      MAX_CONN_WINDOW_LINE ]
  }

  /** Each line followed by a newline. */
  function JoinLines(lines: seq<string>): string
  {
    if lines == [] then "" else lines[0] + "\n" + JoinLines(lines[1..])
  }

  function RenderConfig(port: nat, certPath: string, keyPath: string, password: string): string
  {
    JoinLines(ConfigLines(port, certPath, keyPath, password))
  }

  // ---------------------------------------------------------------------
  // Reading the document back
  // ---------------------------------------------------------------------

  /** Index of the first newline, or the length when there is none. */
  function LineEnd(s: string): (n: nat)
    ensures n <= |s|
    ensures forall k :: 0 <= k < n ==> s[k] != '\n'
    ensures n < |s| ==> s[n] == '\n'
  {
    if s == [] || s[0] == '\n' then 0 else 1 + LineEnd(s[1..])
  }

  /** Splits a text into its lines; a final line without a newline is kept. */
  function SplitLines(s: string): seq<string>
    decreases |s|
  {
    if s == [] then []
    else if LineEnd(s) == |s| then [s]
    else [s[..LineEnd(s)]] + SplitLines(s[LineEnd(s) + 1..])
  }

  lemma {:induction false} LineEndAfter(a: string, b: string)
    requires '\n' !in a
    ensures LineEnd(a + "\n" + b) == |a|
  {
    if a != [] {
      assert (a + "\n" + b)[1..] == a[1..] + "\n" + b;
      LineEndAfter(a[1..], b);
    }
  }

  /** Round trip: splitting the joined lines gives them back, when no line holds a newline. */
  lemma {:induction false} SplitJoinLines(lines: seq<string>)
    requires forall k :: 0 <= k < |lines| ==> '\n' !in lines[k]
    ensures SplitLines(JoinLines(lines)) == lines
  {
    if lines != [] {
      var s := JoinLines(lines);
      LineEndAfter(lines[0], JoinLines(lines[1..]));
      assert s[..|lines[0]|] == lines[0];
      assert s[|lines[0]| + 1..] == JoinLines(lines[1..]);
      SplitJoinLines(lines[1..]);
    }
  }

  /** Every line of the joined text occurs in it followed by its newline. */
  lemma {:induction false} JoinLinesHasLine(lines: seq<string>, k: nat)
    requires k < |lines|
    ensures Contains(JoinLines(lines), lines[k] + "\n")
  {
    var rest := JoinLines(lines[1..]);
    assert JoinLines(lines) == (lines[0] + "\n") + rest;
    if k == 0 {
      ContainsSelf(lines[0] + "\n");
      ContainsInConcat(lines[0] + "\n", rest, lines[0] + "\n");
    } else {
      JoinLinesHasLine(lines[1..], k - 1);
      ContainsInConcat(lines[0] + "\n", rest, lines[k] + "\n");
    }
  }

  lemma DigitsUnbroken(port: nat)
    ensures '\n' !in ListenLine(port)
  {
    assert '\n' !in DecimalString(port);
  }

  lemma TuningUnbroken()
    ensures '\n' !in IDLE_TIMEOUT_LINE && '\n' !in STREAMS_LINE
    ensures '\n' !in STREAM_WINDOW_LINE && '\n' !in MAX_STREAM_WINDOW_LINE
  {
  }

  lemma WindowsUnbroken()
    ensures '\n' !in CONN_WINDOW_LINE && '\n' !in MAX_CONN_WINDOW_LINE
  {
  }

  /** No line of the template breaks, given interpolated values that hold no newline. */
  lemma TemplateLinesUnbroken(port: nat, certPath: string, keyPath: string, password: string)
    requires '\n' !in certPath && '\n' !in keyPath && '\n' !in password
    ensures forall k :: 0 <= k < 17 ==> '\n' !in ConfigLines(port, certPath, keyPath, password)[k]
  {
    DigitsUnbroken(port);
    TuningUnbroken();
    WindowsUnbroken();
    assert '\n' !in CertLine(certPath) && '\n' !in KeyLine(keyPath) && '\n' !in PasswordLine(password);
  }

  /**
   * The rendered document is exactly the template's seventeen lines, in
   * order, whenever the interpolated values hold no newline: the listen
   * port, the two paths and the password each sit on their own line, beside
   * the fixed memory-saving QUIC settings.
   */
  lemma ConfigDocumentLines(port: nat, certPath: string, keyPath: string, password: string)
    requires '\n' !in certPath && '\n' !in keyPath && '\n' !in password
    ensures SplitLines(RenderConfig(port, certPath, keyPath, password)) ==
            ConfigLines(port, certPath, keyPath, password)
    ensures var lines := SplitLines(RenderConfig(port, certPath, keyPath, password));
      && |lines| == 17
      && lines[0] == ListenLine(port) && lines[2] == CertLine(certPath)
      && lines[3] == KeyLine(keyPath) && lines[6] == PasswordLine(password)
      && lines[11] == IDLE_TIMEOUT_LINE && lines[12] == STREAMS_LINE
      && lines[13] == STREAM_WINDOW_LINE && lines[14] == MAX_STREAM_WINDOW_LINE
      && lines[15] == CONN_WINDOW_LINE && lines[16] == MAX_CONN_WINDOW_LINE
  {
    TemplateLinesUnbroken(port, certPath, keyPath, password);
    SplitJoinLines(ConfigLines(port, certPath, keyPath, password));
  }

  /** The fixed idle timeout, stream limit and receive windows occur verbatim in every rendering. */
  lemma ConfigHasTuning(port: nat, certPath: string, keyPath: string, password: string)
    ensures var doc := RenderConfig(port, certPath, keyPath, password);
      && Contains(doc, IDLE_TIMEOUT_LINE + "\n") && Contains(doc, STREAMS_LINE + "\n")
      && Contains(doc, STREAM_WINDOW_LINE + "\n") && Contains(doc, MAX_STREAM_WINDOW_LINE + "\n")
      && Contains(doc, CONN_WINDOW_LINE + "\n") && Contains(doc, MAX_CONN_WINDOW_LINE + "\n")
  {
    var lines := ConfigLines(port, certPath, keyPath, password);
    JoinLinesHasLine(lines, 11);
    JoinLinesHasLine(lines, 12);
    JoinLinesHasLine(lines, 13);
    JoinLinesHasLine(lines, 14);
    JoinLinesHasLine(lines, 15);
    JoinLinesHasLine(lines, 16);
  }

  /** The listen port, both paths and the password occur on lines of their own in every rendering. */
  lemma ConfigEmbedsDescriptor(port: nat, certPath: string, keyPath: string, password: string)
    ensures var doc := RenderConfig(port, certPath, keyPath, password);
      && Contains(doc, ListenLine(port) + "\n") && Contains(doc, PasswordLine(password) + "\n")
      && Contains(doc, CertLine(certPath) + "\n") && Contains(doc, KeyLine(keyPath) + "\n")
  {
    var lines := ConfigLines(port, certPath, keyPath, password);
    JoinLinesHasLine(lines, 0);
    JoinLinesHasLine(lines, 2);
    JoinLinesHasLine(lines, 3);
    JoinLinesHasLine(lines, 6);
  }

  /** The configured port is written as `22222`. */
  lemma DefaultPortDigits()
    ensures DecimalString(SERVER_PORT) == "22222"
  {
    assert DecimalString(2) == "2";
    assert DecimalString(22) == "22";
    assert DecimalString(222) == "222";
    assert DecimalString(2222) == "2222";
  }

  /**
   * `writeConfig()` with the working directory `cwd`: `server.yaml` is
   * overwritten with the rendering for the configured port, the resolved
   * certificate and key paths and the configured password; nothing else
   * changes.
   */
  method WriteConfig(disk: Disk, cwd: string)
    modifies disk
    ensures CONFIG_FILE in disk.files
    ensures disk.files[CONFIG_FILE].content ==
      RenderConfig(SERVER_PORT, ResolvePath(cwd, Certificate.CERT_FILE),
                   ResolvePath(cwd, Certificate.KEY_FILE), AUTH_PASSWORD)
    ensures disk.files - {CONFIG_FILE} == old(disk.files) - {CONFIG_FILE}
  {
    var cfg := RenderConfig(SERVER_PORT, ResolvePath(cwd, Certificate.CERT_FILE),
                            ResolvePath(cwd, Certificate.KEY_FILE), AUTH_PASSWORD);
    disk.WriteFile(CONFIG_FILE, cfg);
    assert disk.files - {CONFIG_FILE} == old(disk.files) - {CONFIG_FILE};
  }
}
