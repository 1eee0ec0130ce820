/** Properties of the dispatcher and the batch runner of main.py that relate several calls. */
module CliFacts {
  import opened Base
  import opened Cipher
  import Text
  import KeyStore
  import Access
  import Audit
  import opened Cli

  /**
   A decrypt naming an application that is not authorised is answered by one
   denied entry carrying that application, before the key registry is read: the
   outcome is the same whatever the registry holds.
   */
  lemma UnauthorisedDecryptDenied(cfg: Config, env: Env, st: State, cmd: Command, otherKeys: KeyStore.Registry)
    requires cmd.name == "decrypt" && |cmd.args| >= 3 && cmd.args[2] != ""
    requires !Access.CheckAccess(st.perms, cmd.args[2], cmd.args[0])
    ensures var denied := Audit.Entry(env.loggedAt, "decrypt", cmd.args[0], Some(cmd.args[2]), false);
      && Step(cfg, env, st, cmd) == Outcome(State(st.keys, st.perms, st.log + [denied]), AccessDenied(cmd.args[2], cmd.args[0]))
      && Step(cfg, env, st.(keys := otherKeys), cmd) == Outcome(State(otherKeys, st.perms, st.log + [denied]), AccessDenied(cmd.args[2], cmd.args[0]))
  {
  }

  /** Without an application name (absent or empty) decrypt ignores the authorisation registry entirely. */
  lemma DecryptWithoutAppSkipsCheck(cfg: Config, env: Env, st: State, cmd: Command, otherPerms: Access.Permissions)
    requires cmd.name == "decrypt"
    requires |cmd.args| <= 2 || cmd.args[2] == ""
    ensures Step(cfg, env, st.(perms := otherPerms), cmd).reply == Step(cfg, env, st, cmd).reply
    ensures Step(cfg, env, st.(perms := otherPerms), cmd).state.log == Step(cfg, env, st, cmd).state.log
    ensures Step(cfg, env, st.(perms := otherPerms), cmd).state.keys == Step(cfg, env, st, cmd).state.keys
  {
    var other := Decrypt(cfg, env, st.(perms := otherPerms), cmd.args);
    var here := Decrypt(cfg, env, st, cmd.args);
    assert other.Completed? ==> here.Completed? && other.reply == here.reply && other.entry == here.entry && other.keys == here.keys;
    assert !other.Completed? ==> other == here;
  }

  /** The encrypt command seals the remaining arguments joined by single spaces under the stored key. */
  lemma EncryptJoinsPlaintext(cfg: Config, env: Env, st: State, cmd: Command)
    requires cmd.name == "encrypt" && |cmd.args| >= 1
    requires KeyStore.GetKey(cfg.crypto, cfg.master, st.keys, cmd.args[0]).Ok?
    ensures var key := KeyStore.GetKey(cfg.crypto, cfg.master, st.keys, cmd.args[0]).value;
      Step(cfg, env, st, cmd).reply == Encrypted(cfg.crypto.seal(key, env.payloadNonce, Text.Join(cmd.args[1..], " ")))
    ensures Step(cfg, env, st, cmd).state.keys == st.keys && Step(cfg, env, st, cmd).state.perms == st.perms
  {
  }

  /**
   Decrypt opens a token sealed under the key stored for the id, when access is
   not refused: no application, an empty one, or an authorised one, followed by
   any further arguments, which decrypt ignores.
   */
  lemma DecryptOpensSealed(cfg: Config, env: Env, st: State, keyId: string, nonce: string, plaintext: string, app: seq<string>)
    requires Sound(cfg.crypto)
    requires KeyStore.GetKey(cfg.crypto, cfg.master, st.keys, keyId).Ok?
    requires |app| >= 1 ==> app[0] == "" || Access.CheckAccess(st.perms, app[0], keyId)
    ensures var key := KeyStore.GetKey(cfg.crypto, cfg.master, st.keys, keyId).value;
      Step(cfg, env, st, Command("decrypt", [keyId, cfg.crypto.seal(key, nonce, plaintext)] + app)).reply == Decrypted(plaintext)
  {
    var key := KeyStore.GetKey(cfg.crypto, cfg.master, st.keys, keyId).value;
    var args := [keyId, cfg.crypto.seal(key, nonce, plaintext)] + app;
    assert args[0] == keyId && args[1] == cfg.crypto.seal(key, nonce, plaintext);
    assert |app| >= 1 ==> args[2] == app[0];
    assert Decrypt(cfg, env, st, args).reply == Decrypted(plaintext);
  }

  /**
   For a readable key id, the ciphertext the encrypt command returns decrypts,
   under the same key id and with no application named, to the words it was
   given joined by single spaces.
   */
  lemma EncryptDecryptRoundTrip(cfg: Config, e1: Env, e2: Env, st: State, keyId: string, words: seq<string>)
    requires Sound(cfg.crypto)
    requires KeyStore.GetKey(cfg.crypto, cfg.master, st.keys, keyId).Ok?
    ensures var o := Step(cfg, e1, st, Command("encrypt", [keyId] + words));
      Step(cfg, e2, o.state, Command("decrypt", [keyId, o.reply.ciphertext])).reply == Decrypted(Text.Join(words, " "))
  {
    var args := [keyId] + words;
    assert args[0] == keyId && args[1..] == words;
    EncryptJoinsPlaintext(cfg, e1, st, Command("encrypt", args));
    var o := Step(cfg, e1, st, Command("encrypt", args));
    DecryptOpensSealed(cfg, e2, o.state, keyId, e1.payloadNonce, Text.Join(words, " "), []);
    assert [keyId, o.reply.ciphertext] + [] == [keyId, o.reply.ciphertext];
  }

  /** The same round trip through an application authorised for the key. */
  lemma EncryptDecryptAuthorisedRoundTrip(cfg: Config, e1: Env, e2: Env, st: State, keyId: string, words: seq<string>, app: string)
    requires Sound(cfg.crypto)
    requires KeyStore.GetKey(cfg.crypto, cfg.master, st.keys, keyId).Ok?
    requires Access.CheckAccess(st.perms, app, keyId)
    ensures var o := Step(cfg, e1, st, Command("encrypt", [keyId] + words));
      Step(cfg, e2, o.state, Command("decrypt", [keyId, o.reply.ciphertext, app])).reply == Decrypted(Text.Join(words, " "))
  {
    var args := [keyId] + words;
    assert args[0] == keyId && args[1..] == words;
    EncryptJoinsPlaintext(cfg, e1, st, Command("encrypt", args));
    var o := Step(cfg, e1, st, Command("encrypt", args));
    DecryptOpensSealed(cfg, e2, o.state, keyId, e1.payloadNonce, Text.Join(words, " "), [app]);
    assert [keyId, o.reply.ciphertext] + [app] == [keyId, o.reply.ciphertext, app];
  }

  /** Neither encrypt nor decrypt ever produces a result with a revoked key. */
  lemma RevokedKeyUnusable(cfg: Config, env: Env, st: State, cmd: Command)
    requires |cmd.args| > 0 && cmd.args[0] in st.keys && st.keys[cmd.args[0]].revoked
    ensures !Step(cfg, env, st, cmd).reply.Encrypted?
    ensures !Step(cfg, env, st, cmd).reply.Decrypted?
  {
  }

  /**
   An authorize missing its key id fails, and the failure entry files the
   application name in the key-id column.
   */
  lemma AuthorizeFailureLogsAppName(cfg: Config, env: Env, st: State, app: string)
    ensures Step(cfg, env, st, Command("authorize", [app])) ==
      Outcome(State(st.keys, st.perms, st.log + [Audit.Entry(env.loggedAt, "authorize", app, None, false)]), Failed(MissingArgument))
  {
  }

  /** Authorize succeeds whatever the key registry holds, including for a key id that does not exist. */
  lemma AuthorizeIgnoresKeyRegistry(cfg: Config, env: Env, st: State, app: string, keyId: string)
    ensures Step(cfg, env, st, Command("authorize", [app, keyId])) ==
      Outcome(State(st.keys, Access.AuthorizeApp(st.perms, app, keyId),
                    st.log + [Audit.Entry(env.loggedAt, "authorize", keyId, Some(app), true)]),
              Authorized(app, keyId))
  {
  }

  /**
   A key id that generate accepts is usable at once: encrypt on it seals the
   words under exactly the key the generation drew.
   */
  lemma GenerateThenEncrypt(cfg: Config, e1: Env, e2: Env, st: State, id: string, words: seq<string>)
    requires Sound(cfg.crypto)
    requires !KeyStore.Active(st.keys, id)
    ensures var o := Step(cfg, e1, st, Command("generate", [id]));
      && o.reply == Generated(id)
      && Step(cfg, e2, o.state, Command("encrypt", [id] + words)).reply
           == Encrypted(cfg.crypto.seal(e1.draw.key, e2.payloadNonce, Text.Join(words, " ")))
  {
    var o := Step(cfg, e1, st, Command("generate", [id]));
    KeyStore.CreateThenGet(cfg.crypto, cfg.master, st.keys, id, e1.draw);
    var args := [id] + words;
    assert args[0] == id && args[1..] == words;
    EncryptJoinsPlaintext(cfg, e2, o.state, Command("encrypt", args));
  }

  /** `generate` on the given key id. */
  predicate Recreates(cmd: Command, id: string) {
    cmd.name == "generate" && |cmd.args| > 0 && cmd.args[0] == id
  }

  /** With rotation as written, only generating the same id can clear a revoked flag. */
  lemma StepKeepsRevoked(cfg: Config, env: Env, st: State, cmd: Command, id: string)
    requires !cfg.persistRotation
    requires id in st.keys && st.keys[id].revoked
    requires !Recreates(cmd, id)
    ensures id in Step(cfg, env, st, cmd).state.keys && Step(cfg, env, st, cmd).state.keys[id].revoked
  {
  }

  /** With rotation as written, a revoked key stays revoked through any run that never generates that id again. */
  lemma {:induction false} RevokedStaysRevoked(cfg: Config, st: State, cmds: seq<Command>, envs: seq<Env>, id: string)
    requires |envs| == |cmds|
    requires !cfg.persistRotation
    requires id in st.keys && st.keys[id].revoked
    requires forall i :: 0 <= i < |cmds| ==> !Recreates(cmds[i], id)
    ensures id in Run(cfg, st, cmds, envs).keys && Run(cfg, st, cmds, envs).keys[id].revoked
    decreases |cmds|
  {
    if |cmds| > 0 {
      StepKeepsRevoked(cfg, envs[0], st, cmds[0], id);
      RevokedStaysRevoked(cfg, Step(cfg, envs[0], st, cmds[0]).state, cmds[1..], envs[1..], id);
    }
  }

  /**
   With rotation as written, once revoke on a key id completes, no later encrypt
   or decrypt on that id produces a result, after any run that does not
   generate the id again.
   */
  lemma RevokedKeyNeverUsable(cfg: Config, e1: Env, st: State, id: string, cmds: seq<Command>, envs: seq<Env>, env: Env, cmd: Command)
    requires !cfg.persistRotation
    requires Step(cfg, e1, st, Command("revoke", [id])).reply == Revoked(id)
    requires |envs| == |cmds|
    requires forall i :: 0 <= i < |cmds| ==> !Recreates(cmds[i], id)
    requires |cmd.args| > 0 && cmd.args[0] == id
    ensures var later := Run(cfg, Step(cfg, e1, st, Command("revoke", [id])).state, cmds, envs);
      !Step(cfg, env, later, cmd).reply.Encrypted? && !Step(cfg, env, later, cmd).reply.Decrypted?
  {
    var revoked := Step(cfg, e1, st, Command("revoke", [id])).state;
    RevokeStepRevokes(cfg, e1, st, id);
    RevokedStaysRevoked(cfg, revoked, cmds, envs, id);
    RevokedKeyUnusable(cfg, env, Run(cfg, revoked, cmds, envs), cmd);
  }

  /** A completed revoke command leaves its key id revoked. */
  lemma RevokeStepRevokes(cfg: Config, env: Env, st: State, id: string)
    requires Step(cfg, env, st, Command("revoke", [id])).reply == Revoked(id)
    ensures var keys := Step(cfg, env, st, Command("revoke", [id])).state.keys; id in keys && keys[id].revoked
  {
    var revoke := Command("revoke", [id]);
    assert revoke.args[0] == id;
  }

  /**
   With the corrected, persisted rotation, rotating a revoked key makes it
   usable again: the revocation guarantee above rests on rotate not saving.
   */
  lemma PersistedRotationRevives(cfg: Config, e1: Env, e2: Env, st: State, id: string, words: seq<string>)
    requires Sound(cfg.crypto)
    requires cfg.persistRotation
    requires id in st.keys && st.keys[id].revoked
    ensures var o := Step(cfg, e1, st, Command("rotate", [id]));
      o.reply == Rotated(id) && Step(cfg, e2, o.state, Command("encrypt", [id] + words)).reply.Encrypted?
  {
    var args := [id] + words;
    assert args[0] == id;
  }

  /** Grants are never withdrawn: a pair with access keeps it through any run. */
  lemma {:induction false} GrantsPersist(cfg: Config, st: State, cmds: seq<Command>, envs: seq<Env>, app: string, keyId: string)
    requires |envs| == |cmds|
    requires Access.CheckAccess(st.perms, app, keyId)
    ensures Access.CheckAccess(Run(cfg, st, cmds, envs).perms, app, keyId)
    decreases |cmds|
  {
    if |cmds| > 0 {
      var next := Step(cfg, envs[0], st, cmds[0]).state;
      if next.perms != st.perms {
        Access.AuthorizeGrantsExactly(st.perms, cmds[0].args[0], cmds[0].args[1], app, keyId);
      }
      GrantsPersist(cfg, next, cmds[1..], envs[1..], app, keyId);
    }
  }

  /** Duplicate-free permission lists and positive key versions. */
  predicate Invariant(st: State) {
    Access.WellFormed(st.perms) && KeyStore.Versioned(st.keys)
  }

  /** One command keeps the state invariant. */
  lemma StepKeepsInvariant(cfg: Config, env: Env, st: State, cmd: Command)
    requires Invariant(st)
    ensures Invariant(Step(cfg, env, st, cmd).state)
  {
    if |cmd.args| > 0 && cmd.name in {"generate", "rotate", "revoke"} {
      KeyStore.OperationsKeepVersioned(cfg.crypto, cfg.master, st.keys, cmd.args[0], env.draw);
    }
  }

  /** Any run keeps the state invariant. */
  lemma {:induction false} RunKeepsInvariant(cfg: Config, st: State, cmds: seq<Command>, envs: seq<Env>)
    requires |envs| == |cmds|
    requires Invariant(st)
    ensures Invariant(Run(cfg, st, cmds, envs))
    decreases |cmds|
  {
    if |cmds| > 0 {
      StepKeepsInvariant(cfg, envs[0], st, cmds[0]);
      RunKeepsInvariant(cfg, Step(cfg, envs[0], st, cmds[0]).state, cmds[1..], envs[1..]);
    }
  }

  /** A command written as its words separated by single spaces parses back to itself. */
  lemma ParseLineRoundTrip(cmd: Command)
    requires Text.IsWord(cmd.name) && cmd.name[0] != '#'
    requires forall i :: 0 <= i < |cmd.args| ==> Text.IsWord(cmd.args[i])
    ensures ParseLine(Text.Join([cmd.name] + cmd.args, " ") + "\n") == Some(cmd)
  {
    var ws := [cmd.name] + cmd.args;
    assert ws[0] == cmd.name && ws[1..] == cmd.args;
    assert forall i :: 0 <= i < |ws| ==> Text.IsWord(ws[i]);
    var line := Text.Join(ws, " ");
    Text.JoinedWordsEnds(ws);
    Text.StripLine(line);
    Text.WordsOfJoin(ws);
    ParseStrippedLine(line + "\n", line);
  }

  /** A line whose stripped form is non-empty and does not start with `#` parses into its words. */
  lemma ParseStrippedLine(line: string, t: string)
    requires Text.Strip(line) == t
    requires |t| > 0 && t[0] != '#' && |Text.Words(t)| > 0
    ensures ParseLine(line) == Some(Command(Text.Words(t)[0], Text.Words(t)[1..]))
  {
  }

  /**
   A command line as `split()` reads it: the command's words separated by any
   non-empty whitespace, with any whitespace (the newline included) before and
   after, parses into that command.
   */
  lemma ParseSpacedLine(pad: string, cmd: Command, gaps: seq<string>)
    requires Text.Blank(pad)
    requires Text.IsWord(cmd.name) && cmd.name[0] != '#'
    requires forall i :: 0 <= i < |cmd.args| ==> Text.IsWord(cmd.args[i])
    requires |gaps| == |cmd.args| + 1
    requires forall i :: 0 <= i < |gaps| ==> Text.Blank(gaps[i])
    requires forall i :: 0 <= i < |gaps| - 1 ==> |gaps[i]| > 0
    ensures ParseLine(pad + Text.Spaced([cmd.name] + cmd.args, gaps)) == Some(cmd)
  {
    var ws := [cmd.name] + cmd.args;
    assert ws[0] == cmd.name && ws[1..] == cmd.args;
    assert forall i :: 0 <= i < |ws| ==> Text.IsWord(ws[i]);
    Text.StripSpaced(pad, ws, gaps);
    var t := Text.Strip(pad + Text.Spaced(ws, gaps));
    ParseStrippedLine(pad + Text.Spaced(ws, gaps), t);
  }

  /** Whitespace-only lines and lines whose first visible character is `#` yield no command. */
  lemma BlankAndCommentLinesSkipped(pad: string, rest: string)
    requires forall i :: 0 <= i < |pad| ==> Text.IsSpace(pad[i])
    ensures ParseLine(pad) == None
    ensures ParseLine(pad + "#" + rest) == None
  {
    Text.TrimLeftPadded(pad, "");
    assert pad + "" == pad;
    var t := "#" + rest;
    Text.TrimLeftPadded(pad, t);
    assert pad + "#" + rest == pad + t;
    Text.TrimRightKeepsFirst(t);
  }

  /** Parsing a file split in two parses each part. */
  lemma {:induction false} CommandsAppend(a: seq<string>, b: seq<string>)
    ensures Commands(a + b) == Commands(a) + Commands(b)
    decreases |a|
  {
    if |a| == 0 {
      assert a + b == b;
    } else {
      assert (a + b)[0] == a[0];
      assert (a + b)[1..] == a[1..] + b;
      CommandsAppend(a[1..], b);
    }
  }

  /** A blank or comment line anywhere in a file contributes no command. */
  lemma IgnoredLineContributesNothing(a: seq<string>, line: string, b: seq<string>)
    requires ParseLine(line) == None
    ensures Commands(a + [line] + b) == Commands(a + b)
  {
    var single := [line];
    assert Commands(single) == [] by {
      assert single[0] == line && single[1..] == [];
    }
    assert a + [line] + b == (a + single) + b;
    CommandsAppend(a + single, b);
    CommandsAppend(a, single);
    assert Commands(a) + [] == Commands(a);
    CommandsAppend(a, b);
  }

  /** A parsed line in front of a file contributes its command in front of the file's commands. */
  lemma CommandsOfLine(line: string, c: Command, rest: seq<string>)
    requires ParseLine(line) == Some(c)
    ensures Commands([line] + rest) == [c] + Commands(rest)
  {
    var lines := [line] + rest;
    assert lines[0] == line && lines[1..] == rest;
  }

  /** A command file with each command on its own line, words separated by single spaces. */
  function FileOf(cmds: seq<Command>): (lines: seq<string>)
    ensures |lines| == |cmds|
    decreases |cmds|
  {
    if |cmds| == 0 then [] else [Text.Join([cmds[0].name] + cmds[0].args, " ") + "\n"] + FileOf(cmds[1..])
  }

  /** A command that `split()` can have produced: its words are non-empty and whitespace-free, and it is no comment. */
  predicate Writable(c: Command) {
    Text.IsWord(c.name) && c.name[0] != '#' && forall i :: 0 <= i < |c.args| ==> Text.IsWord(c.args[i])
  }

  /** Writing commands to a file and parsing the file gives the same commands back, in order. */
  lemma {:induction false} CommandsOfFile(cmds: seq<Command>)
    requires forall i :: 0 <= i < |cmds| ==> Writable(cmds[i])
    ensures Commands(FileOf(cmds)) == cmds
    decreases |cmds|
  {
    if |cmds| > 0 {
      FileOfFirst(cmds[0], cmds[1..]);
      assert [cmds[0]] + cmds[1..] == cmds;
      CommandsOfFile(cmds[1..]);
    }
  }

  /** The first command written to a file is the first command parsed from it. */
  lemma FileOfFirst(c: Command, rest: seq<Command>)
    requires Writable(c)
    ensures Commands(FileOf([c] + rest)) == [c] + Commands(FileOf(rest))
  {
    var cmds := [c] + rest;
    assert cmds[0] == c && cmds[1..] == rest;
    var first := Text.Join([c.name] + c.args, " ") + "\n";
    assert FileOf(cmds) == [first] + FileOf(rest);
    ParseLineRoundTrip(c);
    CommandsOfLine(first, c, FileOf(rest));
  }

  /** Running a command file runs every command written in it, in order. */
  lemma RunFileRunsEveryCommand(cfg: Config, st: State, cmds: seq<Command>, envs: seq<Env>)
    requires forall i :: 0 <= i < |cmds| ==> Writable(cmds[i])
    requires |envs| == |cmds|
    ensures |envs| == |Commands(FileOf(cmds))|
    ensures RunFile(cfg, st, FileOf(cmds), envs) == Run(cfg, st, cmds, envs)
  {
    CommandsOfFile(cmds);
  }

  /** A run of one command is that command's step. */
  lemma RunSingle(cfg: Config, st: State, c: Command, e: Env)
    ensures Run(cfg, st, [c], [e]) == Step(cfg, e, st, c).state
  {
    assert [c][1..] == [] && [e][1..] == [];
  }

  /**
   Running two batches one after the other is running them joined: each command
   starts from the state the command before it left.
   */
  lemma {:induction false} RunAppend(cfg: Config, st: State, a: seq<Command>, b: seq<Command>, ea: seq<Env>, eb: seq<Env>)
    requires |ea| == |a| && |eb| == |b|
    ensures Run(cfg, st, a + b, ea + eb) == Run(cfg, Run(cfg, st, a, ea), b, eb)
    decreases |a|
  {
    if |a| == 0 {
      assert a + b == b && ea + eb == eb;
    } else {
      assert (a + b)[0] == a[0] && (a + b)[1..] == a[1..] + b;
      assert (ea + eb)[0] == ea[0] && (ea + eb)[1..] == ea[1..] + eb;
      RunAppend(cfg, Step(cfg, ea[0], st, a[0]).state, a[1..], b, ea[1..], eb);
    }
  }

  /**
   A two-command run of generate then encrypt on a fresh id: the encrypt sees the
   generated key, and the log gains the two success entries in command order.
   */
  lemma GenerateThenEncryptRun(cfg: Config, e1: Env, e2: Env, st: State, id: string, words: seq<string>)
    requires Sound(cfg.crypto)
    requires !KeyStore.Active(st.keys, id)
    ensures Run(cfg, st, [Command("generate", [id]), Command("encrypt", [id] + words)], [e1, e2]).log ==
      st.log + [Audit.Entry(e1.loggedAt, "generate", id, None, true), Audit.Entry(e2.loggedAt, "encrypt", id, None, true)]
  {
    var gen := Command("generate", [id]);
    var enc := Command("encrypt", [id] + words);
    assert gen.args[0] == id && enc.args[0] == id;
    GenerateThenEncrypt(cfg, e1, e2, st, id, words);
    var mid := Step(cfg, e1, st, gen).state;
    assert mid.log == st.log + [Audit.Entry(e1.loggedAt, "generate", id, None, true)];
    var last := Step(cfg, e2, mid, enc);
    assert last.state.log == mid.log + [Audit.Entry(e2.loggedAt, "encrypt", id, None, true)];
    RunAppend(cfg, st, [gen], [enc], [e1], [e2]);
    RunSingle(cfg, st, gen, e1);
    RunSingle(cfg, mid, enc, e2);
    assert [gen] + [enc] == [gen, enc] && [e1] + [e2] == [e1, e2];
  }
}
