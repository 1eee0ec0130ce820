# BYOK key manager — Dafny model of the key lifecycle and authorisation core

This project models the core of a small command-line key vault. The core has four parts:

- **Key registry.** It maps a key id to a record with a version, the key material sealed under a master key, a creation stamp and a revoked flag. The operations are create, get, rotate and revoke.
- **Authorisation registry.** It maps an application name to the list of key ids the application may use. The operations are authorise and check.
- **Audit trail.** It is append-only. A recognised command with at least one argument writes exactly one entry to it, whether it succeeds, is denied or fails.
- **Command dispatcher and batch-file runner.** These tie the registries and the audit trail together.

Each persisted store is an immutable value:
- the key registry is `map<string, KeyRecord>`;
- the authorisation registry is `map<string, seq<string>>`;
- the audit trail is `seq<Entry>`.

Each operation is a pure function from the loaded store to the store left on disk, or to a typed error. The modules follow the source files:

| module | file | models |
|---|---|---|
| `KeyStore` | key_store.dfy | key_store.py |
| `Access` | access.dfy | access.py |
| `Audit` | audit.dfy | audit.py |
| `Cli`, `CliFacts` | cli.dfy, cli_facts.dfy | `execute_command` and `run_command_file` of main.py |
| `Cipher` | cipher.dfy | Fernet as used through crypto.py |
| `Text` | text.dfy | Python's `strip`, `split` and `join` |
| `Base` | base.dfy | `Option` and `Result` |

Fernet appears only as a parameter, `Cipher.Crypto(seal, open)`. Its authenticated round-trip is the hypothesis `Cipher.Sound`. Lemmas that need the round-trip take `Sound` as a precondition. `Cipher.ToyIsSound` shows that the hypothesis can be met.

The environment's nondeterminism comes in as explicit inputs:
- `KeyStore.Draw` carries the fresh key from `generate_key`, the storage-encryption randomness and the creation timestamp;
- `Cli.Env` adds the payload-encryption randomness and the audit timestamp.

The master key is a configuration value, `Cli.Config.master`.

`Cli.Config.persistRotation` selects how rotate behaves:
- `false` is rotate as key_store.py has it: the new record is never saved (see Findings);
- `true` is the corrected rotation.

In a few places a vault of this kind would be expected to behave differently from what the code does. The model follows the code:
- One might expect every attempted operation to leave an audit entry. `execute_command` (main.py:67-73) writes none for an unknown command, or for a command with no arguments (`Cli.Step`).
- `rotate_key`'s docstring (key_store.py:68) promises a new version, but the function never saves it (see Findings).
- An application's grants behave as a set, but access.py:30-34 keeps an ordered list that `authorize_app` only appends to (`Access.AuthorizeApp`).
- A denied decrypt does not raise. main.py:35-38 logs a DENIED entry and returns normally, which is modelled as the `AccessDenied` reply.
- The access check is skipped when the application name given to decrypt is empty (main.py:35), because an empty string is falsy in Python (`CliFacts.DecryptWithoutAppSkipsCheck`).

## Model

| member | source | states |
|---|---|---|
| `KeyStore.CreateKey` | key_store.py:30-44 | Fails with KeyExists exactly when the id is present and not revoked, so a revoked id is reused. On success the id's record is version 1, unrevoked, stamped, and holds the fresh key sealed under the master key. Every other id keeps its record. |
| `KeyStore.GetKey` | key_store.py:48-64 | Absent id gives KeyNotFound. Revoked id gives KeyRevoked. Otherwise the result is the stored material opened with the master key. A result is returned only for an active record whose token opens. An active record whose token does not open gives MaterialUnreadable. |
| `KeyStore.RotateKey` | key_store.py:67-79 | Absent id gives KeyNotFound. On success the registry left on disk is the one loaded, because the new record is never saved. |
| `KeyStore.RotateKeyPersisted` | key_store.py:67-79 | Corrected rotation. The saved record has version + 1, is unrevoked, and holds freshly sealed material and a fresh stamp. Other ids are unchanged. |
| `KeyStore.RevokeKey` | key_store.py:82-92 | Absent id gives KeyNotFound. Otherwise only the revoked flag of that id becomes true. Version, material, stamp and all other ids are unchanged. |
| `KeyStore.CreateThenGet` | key_store.py:38-64 | After a successful create, get returns exactly the key generated at creation. |
| `KeyStore.CreateRevivesRevoked` | key_store.py:35-44 | A revoked id is unreadable. Create on it succeeds, and get then returns the new key. |
| `KeyStore.RevokeThenGet` | key_store.py:57-58 | After revoke, get fails with KeyRevoked. |
| `KeyStore.RevokeIdempotent` | key_store.py:90-92 | Revoking twice leaves the same registry as revoking once. |
| `KeyStore.RevokedSurvivesRevokeAndRotate` | key_store.py:67-92 | A revoked key stays unreadable after revoke or rotate of any id. |
| `KeyStore.RotateLosesNewVersion` | key_store.py:74-79 | Rotate reports success, yet the record it leaves differs from the one a saved rotation would leave. The registry still holds the old version, and get returns the old material. |
| `KeyStore.RotateLosesNewVersionExample` | key_store.py:78-79 | Concrete instance: rotating a version-1 key leaves the registry unchanged at version 1, where the saved rotation leaves version 2. |
| `KeyStore.RotatePersistedAdvances` | key_store.py:74-79 | Corrected rotation raises the version by exactly 1. Get then returns the newly drawn key, which differs from what get returned before the rotation. |
| `KeyStore.RotatePersistedRevives` | key_store.py:78-79 | Corrected rotation resets revoked, so a revoked key becomes readable again. |
| `KeyStore.OperationsKeepVersioned` | key_store.py:41-92 | Create, rotate (both forms) and revoke keep every version positive. |
| `Access.CheckAccess` | access.py:39-46 | An app with no entry is denied rather than failing. Access is granted exactly when the app has an entry and the key id occurs at some position in its list. |
| `Access.AuthorizeApp` | access.py:26-36 | An unknown app gets the list [key]. A missing key is appended at the end. A present key leaves the map unchanged. Other apps keep their lists. Duplicate-free lists stay duplicate-free. |
| `Access.AuthorizeGrantsExactly` | access.py:30-46 | After authorising (app, key), check_access holds for exactly the pairs that held before plus (app, key). In particular it holds for (app, key). |
| `Access.UnknownAppDenied` | access.py:43-44 | check_access on an app with no entry returns false rather than failing. Authorising the pair then grants it. |
| `Access.AuthorizeIdempotent` | access.py:33-34 | A second identical authorisation changes nothing. |
| `Access.AuthorizeMonotone` | access.py:26-36 | Authorising never removes a grant. Key existence is not consulted. |
| `Access.AuthorizePreservesOrder` | access.py:30-34 | The app's earlier list is kept, in order, as a prefix of at most one more element. |
| `Audit.Status` | audit.py:13 | The status is SUCCESS iff the entry records success, and DENIED otherwise. |
| `Audit.AppColumn` | audit.py:14 | The app column is "None" when the name is absent or empty. Otherwise it is the name. |
| `Audit.Line` | audit.py:12-16 | The written line ends in a newline. It starts with the timestamp followed by " \| ", and ends with the status column and the newline. `Audit.LineRoundTrip` shows all five columns read back. |
| `Audit.Log` | audit.py:18-19 | Log appends exactly one entry at the end. Earlier entries are unchanged. |
| `Audit.LogAppendsLine` | audit.py:16-19 | The rendered audit file after log is the old file followed by the new line. |
| `Audit.LineRoundTrip` | audit.py:12-16 | A line is the five columns timestamp, action, key id, app and status, joined by a space, a bar and a space, and ended by a newline. When no column contains a bar, the line splits back into those five columns. Reading a line back therefore recovers the timestamp, action and key id, and its status column says SUCCESS exactly when the entry records success. |
| `Audit.AppPlaceholderAmbiguous` | audit.py:14 | An absent app, an empty app and an app named "None" produce the same line. |
| `Text.Words` | main.py:82 | Splitting yields non-empty runs without whitespace. The first word starts with the first character when that character is not a space. Together with `Text.WordsOfSpaced` this fixes `split()` on every string. |
| `Text.WordsSkipsBlank` | main.py:82 | Leading whitespace of any length does not change the split. |
| `Text.WordsDropsBlank` | main.py:82 | Trailing whitespace of any length does not change the split. |
| `Text.WordsOfSpaced` | main.py:82 | Words separated by non-empty runs of any whitespace, with any whitespace before and after, split into exactly those words. For example, two spaces between words count as one separator. |
| `Text.StripPadded` | main.py:79 | Stripping a non-space-led string behind a whitespace prefix removes that prefix, and the result still starts with the first visible character. |
| `Text.WordsOfTrimRight` | main.py:79-82 | rstrip never changes how a string splits. |
| `Text.StripSpaced` | main.py:79-82 | Stripping and then splitting such a spaced line gives its words. The stripped line starts with the first word. |
| `Text.WordsOfJoin` | main.py:22 | Joining words with single spaces and splitting again returns the words. |
| `Text.Strip` | main.py:79 | A stripped non-empty line starts and ends with a non-space, and is no longer than the original. |
| `Text.StripIsMiddle` | main.py:79 | strip keeps exactly a contiguous middle of the line. Everything cut off in front of it and behind it is whitespace. |
| `Text.StripEmpty` | main.py:79-80 | A line strips to nothing exactly when it is all whitespace. |
| `Text.Join` | main.py:22 | Joining no parts gives the empty string. A join of at least one part starts with the first part. |
| `Text.JoinEnds` | main.py:22 | In a join of several parts, the separator follows the first part. Every join ends with its last part. |
| `Text.TrimLeft` | main.py:79 | lstrip removes exactly the whitespace prefix. |
| `Text.TrimRight` | main.py:79 | rstrip removes exactly the whitespace suffix. |
| `Cli.Generate` | main.py:12-17 | With no argument it raises MissingArgument. Generate completes exactly when the id is not active, and otherwise raises KeyExists. On completion the key registry is `create_key`'s result and permissions are unchanged. It logs ("generate", id, None, success) and replies Generated(id). |
| `Cli.Encrypt` | main.py:19-26 | With no argument it raises MissingArgument. Encrypt completes exactly when `get_key` yields the key, and otherwise raises get_key's error. On completion it changes no registry and logs ("encrypt", id, None, success). It replies with args[1:], joined by single spaces, sealed under that key. |
| `Cli.Decrypt` | main.py:28-43 | With fewer than two arguments it raises MissingArgument. A named, non-empty app without a grant is refused, and the refusal completes as AccessDenied. Otherwise decrypt completes exactly when `get_key` yields the key and the token opens under it, and the reply is the opened plaintext. If it fails, it raises get_key's error when the key cannot be read, and BadCiphertext when the token does not open. It replies AccessDenied only when refused, so an unrefused decrypt with extra arguments still decrypts. Either way it changes no registry. It logs ("decrypt", id, app or None, flag), and the flag is true exactly for a decryption. |
| `Cli.DecryptApp` | main.py:32 | Decrypt names an app exactly when it has more than two arguments, and the app is the third argument. |
| `Cli.Rotate` | main.py:45-50 | With no argument it raises MissingArgument. Rotate completes exactly for an id in the registry, revoked or not, and otherwise raises KeyNotFound. It logs ("rotate", id, None, success) and replies Rotated(id). As written, the key registry is unchanged. With the corrected rotation, the registry is `RotateKeyPersisted`'s result. |
| `Cli.Revoke` | main.py:52-57 | With no argument it raises MissingArgument. Revoke completes exactly for an id in the registry, and otherwise raises KeyNotFound. On completion the key registry is `revoke_key`'s result and permissions are unchanged. It logs ("revoke", id, None, success) and replies Revoked(id). |
| `Cli.Authorize` | main.py:59-65 | Authorize completes exactly when both arguments are given, whatever the key registry holds, and otherwise raises MissingArgument. It leaves the key registry alone and sets the permissions to `authorize_app`(args[0], args[1]). It logs ("authorize", args[1], args[0], success). |
| `Cli.Attempt` | main.py:11-68 | Exactly the six command names are dispatched. Only authorize changes permissions. Only generate, revoke and persisted rotate change keys. |
| `Cli.Step` | main.py:9-73 | The log grows by at most one entry and earlier entries are kept. One entry is appended iff the command is known and has arguments. The entry's action is the command name, and its success flag is true iff the reply is a success. A failure leaves both registries unchanged and logs (command, args[0], None, false). An unknown command changes nothing, and only an unknown command replies UnknownCommand. Only a refused decrypt replies AccessDenied. Any other completed command logs (command, key id, app, flag): the key id is args[1] for authorize and args[0] otherwise; the app is args[0] for authorize, decrypt's optional third argument, and None otherwise. Permissions change only through authorize, and the key registry only through generate, revoke or persisted rotate. Generate succeeds iff the id is not active and leaves `create_key`'s registry. Revoke and rotate succeed iff the id exists, leaving `revoke_key`'s and (corrected) `RotateKeyPersisted`'s registry. Authorize succeeds iff it has two arguments. |
| `Cli.ParseLine` | main.py:79-84 | A parsed line gives a command word that does not start with `#`, followed by argument words. |
| `Cli.Commands` | main.py:78-84 | A file yields at most one command per line. Every command name is a word not starting with `#`. Its partners are `CliFacts.CommandsOfLine` and `CliFacts.CommandsOfFile`. |
| `Cli.Run` | main.py:75-86 | Running commands in order extends the log by exactly one entry per known command that has arguments. Earlier entries are kept. `CliFacts.RunSingle` and `CliFacts.RunAppend` fix it as the fold of `Step`: each command starts from the state the previous one saved. |
| `Cli.RunFile` | main.py:75-86 | A command file appends at most one audit entry per line and keeps earlier entries. `CliFacts.RunFileRunsEveryCommand` shows it runs every command written in the file. |
| `CliFacts.UnauthorisedDecryptDenied` | main.py:28-38 | A decrypt naming an unauthorised, non-empty app appends only ("decrypt", key, app, false), replies AccessDenied, and leaves both registries unchanged. The outcome is the same whatever the key registry holds, so get_key is never consulted. |
| `CliFacts.DecryptWithoutAppSkipsCheck` | main.py:32-35 | A decrypt with no app, or an empty one, behaves the same under any authorisation registry. |
| `CliFacts.EncryptJoinsPlaintext` | main.py:19-25 | Encrypt seals args[1:] joined by single spaces under the stored key. |
| `CliFacts.DecryptOpensSealed` | main.py:28-43 | A token sealed under the stored key decrypts to its plaintext when the third argument is absent, empty, or an authorised app, whatever further arguments follow. |
| `CliFacts.EncryptDecryptRoundTrip` | main.py:19-43 | For a readable key id, a ciphertext from encrypt decrypts, under the same key id and with no app, to the joined words. |
| `CliFacts.EncryptDecryptAuthorisedRoundTrip` | main.py:19-43 | The same round trip when decrypt names an app authorised for the key. |
| `CliFacts.RevokedKeyUnusable` | main.py:19-43 | No encrypt or decrypt on a revoked key id produces a result. |
| `CliFacts.AuthorizeFailureLogsAppName` | main.py:59-73 | An authorize with one argument fails, and the failure entry carries the app name in the key-id column. |
| `CliFacts.AuthorizeIgnoresKeyRegistry` | main.py:59-65 | Authorising any key id succeeds, whether or not the key registry holds it. It updates only the permissions and logs ("authorize", key, app, success). |
| `CliFacts.GenerateThenEncrypt` | main.py:12-25 | After generate on an id that is not active, encrypt on that id seals the words under exactly the key the generation drew. |
| `CliFacts.RevokeStepRevokes` | main.py:52-57 | A completed revoke command leaves its key id in the registry, revoked. |
| `CliFacts.RevokedKeyNeverUsable` | main.py:19-57 | With rotation as written: once revoke on an id completes, no later encrypt or decrypt on that id produces a result. This holds after any run of commands that never generates the id again. |
| `CliFacts.StepKeepsRevoked` | main.py:9-73 | With rotation as written, only generate on the same id can clear a revoked flag. |
| `CliFacts.RevokedStaysRevoked` | main.py:75-86 | With rotation as written, a revoked key stays revoked through any run that does not generate that id again. |
| `CliFacts.PersistedRotationRevives` | main.py:45-50 | With the corrected rotation, rotate on a revoked key succeeds, and a later encrypt with it succeeds. |
| `CliFacts.GrantsPersist` | main.py:59-65 | A granted (app, key) pair stays granted through any run. |
| `CliFacts.StepKeepsInvariant` | main.py:9-73 | One command keeps permission lists duplicate-free and key versions positive. |
| `CliFacts.RunKeepsInvariant` | main.py:75-86 | Any run keeps permission lists duplicate-free and key versions positive. |
| `CliFacts.ParseLineRoundTrip` | main.py:79-84 | A command written as space-separated words with a trailing newline parses back to the same command and arguments. |
| `CliFacts.ParseSpacedLine` | main.py:79-84 | A line holding the command's words separated by any non-empty whitespace, with any whitespace around them, parses into that command. |
| `CliFacts.BlankAndCommentLinesSkipped` | main.py:80-81 | Whitespace-only lines, and lines whose first visible character is `#`, yield no command. |
| `CliFacts.IgnoredLineContributesNothing` | main.py:78-81 | Inserting a blank or comment line anywhere in a file leaves the command list unchanged. |
| `CliFacts.CommandsAppend` | main.py:78-86 | The commands of two files joined are the first file's commands followed by the second's. |
| `CliFacts.CommandsOfLine` | main.py:78-86 | A line that parses contributes its command, in front of the commands of the lines after it. |
| `CliFacts.CommandsOfFile` | main.py:78-86 | Commands written one per line, words separated by single spaces, parse back to the same commands in the same order. |
| `CliFacts.RunSingle` | main.py:78-86 | Running a single command is that command's step. |
| `CliFacts.RunAppend` | main.py:78-86 | Running two batches one after the other is the same as running them joined. Each command starts from the registries and log the command before it left. |
| `CliFacts.GenerateThenEncryptRun` | main.py:12-25 | In a run of generate then encrypt on a fresh id, encrypt succeeds with the generated key. The log gains ("generate", id, None, success) and then ("encrypt", id, None, success), in that order. |
| `CliFacts.RunFileRunsEveryCommand` | main.py:75-86 | Running such a file is running exactly those commands in order. |

## Findings

| source | as written | input that shows it | evidently intended | confidence | as-written member | corrected member |
|---|---|---|---|---|---|---|
| key_store.py:67-79 | `rotate_key` builds the version + 1 record with new material but never calls `_save_keys`, so the rotation is lost. | A registry holding `k` at version 1; `rotate k` reports success; the registry still holds version 1 and the old material. | Save the new record, as `create_key` (key_store.py:44) and `revoke_key` (key_store.py:92) do. | high; not executed | `KeyStore.RotateLosesNewVersion` | `KeyStore.RotatePersistedAdvances` |

The corrected rotation, `KeyStore.RotateKeyPersisted`, is used by `Cli.Step` when `persistRotation` is true. This exposes a trade-off:
- As written, a revoked key stays revoked until it is generated again (`CliFacts.RevokedStaysRevoked`). That holds only because rotation is never saved.
- With the fix, rotation resets the revoked flag and revives the key (`CliFacts.PersistedRotationRevives`). That matches the intended lifecycle, in which rotation issues a fresh, unrevoked version.

## Left out

- Fernet (crypto.py) is abstract. It is the `Crypto` parameter, with the round-trip as the `Sound` hypothesis. Key length, AEAD security and nonce freshness are not modelled. Sealing never fails. Fernet rejects a malformed key, but every data key comes from `generate_key`.
- The shipped `MASTER_KEY` placeholder (key_store.py:11) is not a valid Fernet key. Under it every create, get and rotate would raise. The model takes the master key as a configured value.
- UTF-8 encode and decode between `bytes` and `str` are left out. Fernet keys and tokens are ASCII base64, so they are treated as `string`. A payload that is not valid UTF-8 after decryption is not distinguished from `InvalidToken`.
- JSON encoding and file I/O in `_load_keys`, `_save_keys`, `_load_permissions`, `_save_permissions` and the append in `log` are left out. Each store is a whole value that loads as it was saved. Records are always complete, so a hand-edited file missing `revoked` (read with a default by create, but required by get) is not modelled. I/O failures are not modelled either, including a failing audit write.
- `datetime.now()` is left out. Timestamps are opaque strings supplied through `Draw.stamp` and `Env.loggedAt`.
- `print` output, `sys.argv` handling and the `main` entry point are left out. The reply stands for what a command reports.
- Reading a file into lines is left out. `Cli.RunFile` receives the lines. It receives one environment draw per command, a modelling device for the nondeterministic inputs.
- Concurrency and locking are left out: the program is single-threaded.
