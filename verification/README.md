# Verified model of the Hysteria bootstrap script and the Cloudflare auto-purge plugin

This project models two small pieces of decision logic in Dafny and proves
properties about them.

**The Node.js deployment script** (`panel.freecloud.ltd/hysteria.js`). The
script:

- resolves the host's CPU architecture to an artifact suffix (`arm64` or
  `amd64`);
- downloads the matching Hysteria release binary, with at most `RETRIES = 2`
  retries, and makes it executable;
- makes sure a self-signed certificate and key exist, generating them with
  `openssl` if needed;
- writes a memory-tuned `server.yaml`;
- looks up the public address, falling back to a placeholder;
- spawns the server, forwards `SIGINT` and `SIGTERM` to it, and exits with
  `code || 0` when the child exits.

**The WordPress plugin** (`cf-auto-purge.php`). When a post, a category or a
tag changes, the plugin:

- collects the affected URLs: the home page, the permalink, and the category
  and tag archives;
- removes duplicates and sends them to Cloudflare's purge endpoint, unless
  credentials are missing;
- leaves the user a notice, which is shown once and classed as an error
  exactly when it mentions 错误 ("error").

A separate function fetches the account's zone list through a transient cache.

Every network, filesystem and process call is modelled as an input:

- a sequence of download-attempt outcomes;
- the result of the `openssl` run;
- the address lookup's chunks or failure;
- the child's events;
- the Cloudflare replies.

The filesystem is a `Disk` object holding a map from path to mode and
content. The WordPress transient store is a `Transients` object holding a map
from key to value. The methods that change them are proved against pure
specification functions, and the properties are proved about those functions.

Modules:

| module | file | models |
|---|---|---|
| `Wrappers` | wrappers.dfy | `Option` and `Result` |
| `Text` | text.dfy | substring search, ASCII lower-casing, ECMAScript `trim`, decimal rendering |
| `Architecture` | arch.dfy | `archName` |
| `Files` | files.dfy | the `fs` calls the script makes |
| `Provisioner` | provision.dfy | `downloadBinary` and its retry state machine |
| `Certificate` | certificate.dfy | `ensureCert` |
| `ConfigEmitter` | config.dfy | `writeConfig` and its template |
| `PublicAddress` | address.dfy | `getServerIP` |
| `Supervisor` | supervisor.dfy | the child's events, the exit mapping and the signal relay in `main` |
| `Orchestrator` | orchestrator.dfy | `main` |
| `PurgeLists` | purge_lists.dfy | the purge trigger, the URL lists, `array_values(array_unique(...))` |
| `PurgeNotice` | purge_notice.dfy | the notice text and its CSS class |
| `CachePurge` | purge.dfy | the hooks, `cf_purge_execute_purge`, the notice display, `cf_purge_fetch_zones` |

Three behaviours of the code are worth knowing before reading the contracts:

- **Download retries.** Only a status of 400 or more is retried
  (`hysteria.js:65`). Any other final status, 3xx included, is saved as the
  binary and made executable.
- **Child exit status.** A child killed by a signal has a null code, so
  `code || 0` ends the orchestrator with status 0 (`hysteria.js:299`).
  `Supervisor.ShutdownBySignalExitsZero` states it.
- **Download attempts that end unexpectedly.** When the write stream cannot
  create the file (`hysteria.js:76`), its `error` listener calls `unlinkSync`
  on a path that does not exist (`hysteria.js:88`). That throws inside the
  listener, and the uncaught exception ends the process with status 1 after
  a single request (`Crashed`). The request's `error` and `timeout`
  listeners (`hysteria.js:99-118`) stay attached while the body is piped. A
  reset or a 30 s idle spell mid-body therefore retries, or rejects once the
  budget is spent, without unlinking what was written (`Interrupted`). A
  rejected download can so leave a truncated file with its creation mode,
  and the next run's `existsSync` check (`hysteria.js:52`) accepts it;
  `Provisioner.InterruptedThenRejectedKeepsPartial` shows such a run. When
  the server closes the connection cleanly mid-body, the piped stream
  neither finishes nor fails and no request listener fires. The promise then
  never settles, and the process ends with status 0 once nothing is left to
  wait for (`Pending`). The truncated file stays, since the chmod never
  runs.

## Model

| member | source | states |
|---|---|---|
| `Architecture.ArchNameSpec` | panel.freecloud.ltd/hysteria.js:28-40 | The resolver gives `arm64` exactly when `arm64` or `aarch64` occurs, ignoring case, even if an amd token occurs too. It gives `amd64` exactly when no arm token occurs but `x64`, `x86_64` or `amd64` does. It gives no result otherwise. |
| `Architecture.ArchNameIgnoresCase` | panel.freecloud.ltd/hysteria.js:29-30 | Only the lower-cased text matters: resolving the lower-cased host string gives the same answer. |
| `Architecture.ResolvesX64` | panel.freecloud.ltd/hysteria.js:35-37 | Node's `x64` resolves to `amd64`. |
| `Architecture.ResolvesAArch64` | panel.freecloud.ltd/hysteria.js:32-34 | `AArch64`, in any case, resolves to `arm64`. |
| `Architecture.RejectsArm` | panel.freecloud.ltd/hysteria.js:28-39 | 32-bit `arm` contains no token of either family and resolves to nothing. |
| `Files.Disk.WriteFile` | panel.freecloud.ltd/hysteria.js:192 | Writing replaces the file's content. An existing file keeps its mode; a new one gets the creation mode. No other path changes. |
| `Files.Disk.Chmod` | panel.freecloud.ltd/hysteria.js:82 | `chmodSync` sets the mode of an existing file and keeps its content. |
| `Files.Disk.Unlink` | panel.freecloud.ltd/hysteria.js:88 | `unlinkSync` removes exactly that path and reports whether a file was there. A missing path is the case where the real call throws `ENOENT`. |
| `Provisioner.AttemptEffectSpec` | panel.freecloud.ltd/hysteria.js:64-118 | When any file at `dest` is a partial one left by an earlier attempt: an attempt fails exactly on a status of 400 or more, a stream error after opening, a reset or idle timeout mid-body, a request error or a timeout, or a failed open over a partial file, and it reports that path's error. A finished transfer leaves the body with mode `createMode \| 0o111`. A stream that could not create the file throws when nothing was at `dest`. An interrupted or stalled transfer leaves what was written with its creation mode; a stream error removes the file. No other path changes. |
| `Provisioner.RetryFrom` | panel.freecloud.ltd/hysteria.js:61-121 | From retry count `c`, the loop makes between 1 and `RETRIES + 1 - c` requests, all to the same URL. It ends resolved, rejected, crashed by the `error` listener's throw, or never settled. It never takes the architecture guard's `process.exit(1)`. |
| `Provisioner.Download` | panel.freecloud.ltd/hysteria.js:42-123 | An unresolvable architecture, and only that, exits with status 1; it touches nothing. Requests are made exactly when the architecture resolves and the destination is missing. An existing destination resolves with no request and no change. At most 3 requests are made, all to the release URL of the resolved architecture. |
| `Provisioner.RetryFromDecided` | panel.freecloud.ltd/hysteria.js:63-119 | The loop settles right after the first attempt within the budget that is not a failure, as that attempt says: resolved, crashed or never settled. If every attempt fails, it rejects with the last attempt's error after all `RETRIES + 1` attempts. Whether an attempt fails depends on the partial file the earlier ones left. |
| `Provisioner.RetryFromFiles` | panel.freecloud.ltd/hysteria.js:76-118 | A crashed download leaves no file. A rejected one leaves what the failed attempts left: the part an interrupted attempt wrote, with its creation mode, unless a later stream error removed it. A resolved one leaves the body of the first attempt that is not a failure, with mode `createMode \| 0o111`. A download that never settles leaves the part of that attempt's body written before the stall, with mode `createMode`. No other path changes. |
| `Provisioner.AllFailuresMakeThreeAttempts` | panel.freecloud.ltd/hysteria.js:61-119 | When every attempt fails, exactly 3 requests are made and the download is rejected with the third failure. |
| `Provisioner.DownloadOutcome` | panel.freecloud.ltd/hysteria.js:52-121 | For a missing destination: a resolved download leaves the deciding attempt's body with mode `createMode \| 0o111`. A pending one leaves the part written before the stall, with mode `createMode`, since the chmod never runs. A crash leaves no file. A rejection leaves whatever the last interrupted attempt wrote, with its creation mode, or nothing when none was interrupted or a later stream error removed it. No other path changes. |
| `Provisioner.DownloadSettles` | panel.freecloud.ltd/hysteria.js:52-121 | For a missing destination, the first attempt within the budget that is not a failure decides. The download resolves exactly when that attempt finished, crashes exactly when its stream could not create the file, and never settles exactly when it stalled. It is rejected exactly when every attempt fails. |
| `Provisioner.InterruptedThenRejectedKeepsPartial` | panel.freecloud.ltd/hysteria.js:52-118 | A reset after part of the body followed by two 404 replies rejects the download after 3 requests and leaves the partial body with its creation mode. The next run makes no request and resolves with that file in place. |
| `Provisioner.ExecBitsAdded` | panel.freecloud.ltd/hysteria.js:82 | `mode \| 0o111` keeps every bit already set, sets the owner, group and other execute bits, and changes no other bit. |
| `Provisioner.AttemptDownload` | panel.freecloud.ltd/hysteria.js:63-119 | One attempt on the disk has exactly the effect `AttemptEffect` describes. |
| `Provisioner.DownloadBinary` | panel.freecloud.ltd/hysteria.js:42-123 | The imperative retry loop (shared `retryCount`, write, chmod, unlink of a file that may be missing) ends in the state `Download` specifies: same settlement, same requests, same files. |
| `Certificate.EnsureCert` | panel.freecloud.ltd/hysteria.js:125-169 | No command runs when both `cert.pem` and `key.pem` exist. Otherwise exactly the openssl command runs once. Success writes the key and the certificate and nothing else. A failure is classed as missing tool (an `ENOENT` code) or failed generation, as the catch block writes it. It changes nothing, except a `key.pem` that openssl wrote before failing, which stays. No run changes any file but those two. When it is ready, both files exist. |
| `ConfigEmitter.ConfigDocumentLines` | panel.freecloud.ltd/hysteria.js:173-190 | The document reads back as exactly the template's 17 lines, in order, when the interpolated values contain no newline. The port, the two paths and the password each sit on their own line, and so do the fixed QUIC settings. |
| `ConfigEmitter.ConfigHasTuning` | panel.freecloud.ltd/hysteria.js:183-189 | Every rendering contains the lines `max_idle_timeout: "10s"` and `max_concurrent_streams: 4`. It also contains the receive windows 65536, 131072, 131072 and 262144. |
| `ConfigEmitter.ConfigEmbedsDescriptor` | panel.freecloud.ltd/hysteria.js:173-179 | Every rendering contains its listen line, its certificate and key lines and its password line. |
| `ConfigEmitter.DefaultPortDigits` | panel.freecloud.ltd/hysteria.js:173 | The configured port 22222 is rendered as `22222`. |
| `ConfigEmitter.WriteConfig` | panel.freecloud.ltd/hysteria.js:171-194 | `server.yaml` is overwritten with the rendering for the fixed port and password and the paths resolved against the working directory. Nothing else changes. |
| `Text.Trim` | panel.freecloud.ltd/hysteria.js:205 | `trim()` returns the input without the white space around it. What remains neither starts nor ends with white space. An empty result means the input was all white space. |
| `PublicAddress.GetServerIP` | panel.freecloud.ltd/hysteria.js:196-224 | The chunks, as decoded text, are accumulated in order and the trimmed text is the address. An error or a timeout gives `YOUR_SERVER_IP`; the lookup never fails. A reset or an idle spell mid-body also gives the placeholder. A response the server closes cleanly before its end never settles. |
| `PublicAddress.ReceivedAppend` | panel.freecloud.ltd/hysteria.js:200-203 | For chunks already decoded to text, how the body is cut into chunks does not matter: the received text is their concatenation. |
| `PublicAddress.BodyAddress` | panel.freecloud.ltd/hysteria.js:204-207 | A received body settles with itself minus the surrounding white space. The result starts and ends with a non-space and is unchanged by a second trim. |
| `PublicAddress.BlankBodyGivesEmptyAddress` | panel.freecloud.ltd/hysteria.js:205-207 | An empty or blank body gives the empty address, not the placeholder. |
| `Supervisor.SuperviseSpec` | panel.freecloud.ltd/hysteria.js:288-311 | Every signal received before the first terminating event is forwarded to the child once, in order, as the same signal. The orchestrator exits exactly when such an event occurs: with 1 for a spawn error and with `code \|\| 0` for the child's exit. |
| `Supervisor.LaterEventsIgnored` | panel.freecloud.ltd/hysteria.js:288-300 | After `process.exit`, no later event changes the outcome. |
| `Supervisor.ShutdownBySignalExitsZero` | panel.freecloud.ltd/hysteria.js:293-311 | A relayed signal that kills the child (null code) ends the orchestrator with status 0. |
| `Orchestrator.WriteServerConfig` | panel.freecloud.ltd/hysteria.js:271 | Once the binary, the certificate and the key exist, writing the configuration leaves all four files present, with the expected document. No file but `server.yaml` changes. |
| `Orchestrator.Prepare` | panel.freecloud.ltd/hysteria.js:266-271 | The requests are those of the download. The steps succeed exactly when the download resolves and the certificate was present or generated. Then everything the server needs is on disk, and the binary is the one the download left. Otherwise the process ends with status 0 if the download never settled, and with 1 in every other case. A download that does not resolve leaves the disk as the download left it and runs no command; a resolved one runs openssl exactly when a certificate file is missing. No file but the binary, the certificate, the key and `server.yaml` changes. |
| `Orchestrator.Deploy` | panel.freecloud.ltd/hysteria.js:256-316 | An unresolvable architecture exits 1 with no side effect. A rejected step or a crashed download exits 1 without spawning, and a download that never settles ends with 0; either way only the download's requests are made. Once the steps resolve, the address is requested. A lookup that never settles ends with 0 without spawning. Otherwise the resolved binary is spawned with `server -c server.yaml` after all four files exist. The address is the lookup's, and the exit status and relayed signals are those of the child's events. openssl runs exactly when the download resolved and a certificate file is missing. No file but the binary, the certificate, the key and `server.yaml` changes. |
| `PurgeLists.TermLinks` | cf-auto-purge.php:242-253 | One link per term, in the order of the terms. |
| `PurgeLists.StatusChangeUrlsLayout` | cf-auto-purge.php:237-253 | The status-change list is the home page, then the permalink, then each category link in order, then each tag link in order. |
| `PurgeLists.DeleteDropsPermalink` | cf-auto-purge.php:270-284 | The delete list is the status-change list without the permalink. |
| `PurgeLists.Unique` | cf-auto-purge.php:193 | The deduplicated list has no repeats, has exactly the elements of the input, and is no longer than the input. |
| `PurgeLists.UniqueKeepsFirstOrder` | cf-auto-purge.php:193 | The survivors appear in the order of their first occurrences in the input. |
| `PurgeLists.UniqueOfDistinct` | cf-auto-purge.php:193 | A list without repeats is left unchanged. |
| `PurgeLists.UniqueIdempotent` | cf-auto-purge.php:193 | Deduplicating twice is the same as deduplicating once. |
| `PurgeNotice.NoticeClass` | cf-auto-purge.php:308-309 | The class is `notice-error` exactly when 错误 occurs at some position of the notice; otherwise it is `notice-success`. |
| `PurgeNotice.ErrorWordCaseless` | cf-auto-purge.php:308 | For the needle 错误, which has no ASCII letters, the case-insensitive search is a plain substring search. |
| `PurgeNotice.SuccessNoticeNotError` | cf-auto-purge.php:215 | The success message never contains 错误. |
| `PurgeNotice.PrefixedMentionsError` | cf-auto-purge.php:211-218 | Every message with the `CF API 错误: ` prefix contains 错误. |
| `PurgeNotice.NoticeErrorIffFailed` | cf-auto-purge.php:210-221 | The stored notice is shown as an error exactly when the purge did not succeed: a transport error, or a reply without `success`. |
| `PurgeNotice.NoticeTruthy` | cf-auto-purge.php:307 | Every stored notice is truthy in PHP, so it is displayed. |
| `PurgeNotice.SuccessNoticeInjective` | cf-auto-purge.php:215 | The success message determines the count: different counts give different texts. |
| `CachePurge.NoticeKeysDistinct` | cf-auto-purge.php:221 | Each user has a notice transient of their own, and none of them is the zone-list key. |
| `CachePurge.PurgePlanSpec` | cf-auto-purge.php:177-207 | Nothing is sent for an empty list, or when the email, the API key or the zone id is empty. Otherwise the body lists every URL of the input once, in first-occurrence order, and nothing else. |
| `CachePurge.TermChangePurge` | cf-auto-purge.php:296 | With credentials, a term change sends the term's archive and the home page. The two collapse to the home page alone when the archive link is the home page. Without credentials nothing is sent. |
| `CachePurge.AppendLinks` | cf-auto-purge.php:243-252 | The `foreach` appends the term links, in order, to the list being built. |
| `CachePurge.Transients.ExecutePurge` | cf-auto-purge.php:177-222 | The request sent is the plan for the given list and settings. After a request, only the user's notice transient changes. It then holds the success text with the count of distinct URLs, or the prefixed error. An early return changes nothing. |
| `CachePurge.Transients.OnStatusChange` | cf-auto-purge.php:232-257 | The hook purges only when the new or the old status is `publish` and the post type is `post`. It then purges the status-change list. |
| `CachePurge.Transients.OnDeletePost` | cf-auto-purge.php:265-287 | For a `post` that `get_post` finds, the hook purges the delete list. For anything else it does nothing. |
| `CachePurge.Transients.OnTermChange` | cf-auto-purge.php:295-298 | The hook purges `[term link, home]`. |
| `CachePurge.Transients.DisplayAdminNotice` | cf-auto-purge.php:305-317 | A waiting truthy notice is shown once, with the class `NoticeClass` gives it. Its transient is then deleted, so the next call shows nothing. Without one, nothing is shown and nothing changes. |
| `CachePurge.Transients.FetchZones` | cf-auto-purge.php:58-94 | A cached list is returned without a request. A missing email or key gives `missing_creds` without a request. A transport error is returned as is. An unsuccessful reply gives `api_error` with the first error message or the default, and caches nothing. Success caches the result and returns it. |

## Left out

- Real I/O is not modelled: HTTPS requests, streams, the `fs` calls, `execSync`, `spawn` and OS signal delivery. Each is an input or a map update.
- Console output is not modelled, including `printConnectionInfo` and the plugin's HTML rendering and escaping. It is presentational.
- Timers and concurrency are not modelled: the 1 s retry delay, the 30 s and 10 s request timeouts, and promise and event interleaving. A download timeout is one failed attempt; see the `Provisioner.RetryFromDecided` line for what the script does instead.
- `Provisioner.Download`: a request `error` during the body is one settlement, by the request listener, and is modelled as `Interrupted`. A request error that arrives after the write stream already finished or failed would settle the attempt a second time; that late second settlement is not modelled.
- `Provisioner.RetryFromDecided`: a timeout before any response counts as one failed attempt. In the script, the timeout listener's `request.destroy()` (hysteria.js:110) also makes the request emit `error` ("socket hang up"). The error listener (hysteria.js:99-107) then runs too, with the retry count already incremented, and uses up a second retry. So a timeout at retry count 1 is rejected with that error after two requests, and `main` exits 1. A timeout at retry count 0 schedules two attempts at once. The model captures neither.
- `Provisioner.AllFailuresMakeThreeAttempts`: for the same reason, the script makes three requests only when no timeout occurs before the last attempt.
- `Provisioner.DownloadOutcome`: for the same reason, a timeout before the last attempt can end the script's download rejected where the model goes on to a later attempt.
- `Orchestrator.Deploy`: for the same reason, a run whose download times out before the last attempt can, in the script, exit 1 where the model downloads and launches.
- `Provisioner.Download`: which failures of the write stream happen before the file exists is an input (`OpenFailed` against `StreamError`). The model does not derive it from permissions.
- `PublicAddress.ReceivedAppend`: the chunks are text already decoded. The script appends each `Buffer` to a string, decoding it on its own, so a multi-byte UTF-8 sequence split across two chunks becomes U+FFFD. The model does not capture that. For the ASCII address the service returns, the two agree.
- `Certificate.EnsureCert`: whether a failed run already wrote the key is an input. The model does not derive it from openssl's order of work.
- `Certificate.EnsureCert`: `execSync` runs the command through a shell, so a missing `openssl` usually ends with the shell's status 127 and no `ENOENT` code, which the catch block treats as a failed generation. Which error the shell reports is an input; the model classes it exactly as the catch block does.
- The configuration write is assumed to succeed. A throwing `writeFileSync` would be caught by `main` and exit 1; that path is not modelled.
- `Text.Lower` folds ASCII letters only. This matches PHP 8's `stripos`. For `archName`, JavaScript's `toLowerCase` also folds non-ASCII characters. Only two of them become ASCII letters: U+212A (Kelvin sign) becomes `k`, and U+0130 becomes `i` followed by a combining dot. Neither `k` nor `i` occurs in any token, so the answer is the same.
- The substring searches run over characters, not UTF-8 bytes. For valid UTF-8 the two agree.
- `ConfigEmitter.ResolvePath` only joins a file name to an absolute working directory. It does not model `path.resolve`'s normalisation of `.` and `..` segments.
- `Supervisor.Supervise`: only `SIGINT` and `SIGTERM` are handled. Other signals to the orchestrator are not modelled.
- Transient expiry is not modelled (the 45 s notice TTL and the one-hour zone-cache TTL). An expired transient is the same as an absent one, which the initial store can express.
- `CachePurge.Transients.DisplayAdminNotice`: a zone list stored under a notice key is not modelled. PHP would raise a type error in `stripos`. The plugin never writes such a value.
- The remaining WordPress plumbing is not modelled: menus, settings registration, nonces and the `add_action` wiring. Permalink, category, tag and term links are given as functions. `get_term_link` can return a `WP_Error` during `delete_term`, and `array_unique` would then fail on it; that is not modelled.
- JSON encoding and decoding are not modelled. A Cloudflare reply is only a `success` flag, the first error message if any, and, for zones, the result list.
