/**
 The command dispatcher of main.py. One command is a step over the persisted
 state (key registry, authorisation registry, audit trail); the reply is what
 the command reports back. The batch runner parses a command file line by line
 and runs the resulting commands in order.
 */
module Cli {
  import opened Base
  import opened Cipher
  import Text
  import KeyStore
  import Access
  import Audit

  /**
   The vault's fixed configuration: the crypto primitive, the master key, and
   whether rotate saves its new record (`false` is the behaviour of key_store.py).
   */
  datatype Config = Config(crypto: Crypto, master: string, persistRotation: bool)

  /** What one command draws from the environment: a key generation, a payload-encryption nonce and the audit clock. */
  datatype Env = Env(draw: KeyStore.Draw, payloadNonce: string, loggedAt: string)

  /** Everything a command can change. */
  datatype State = State(keys: KeyStore.Registry, perms: Access.Permissions, log: seq<Audit.Entry>)

  datatype Command = Command(name: string, args: seq<string>)

  /** The exceptions `execute_command` catches. */
  datatype Error =
    | MissingArgument
    | Vault(cause: KeyStore.KeyError)
    | BadCiphertext

  datatype Reply =
    | Generated(keyId: string)
    | Encrypted(ciphertext: string)
    | Decrypted(plaintext: string)
    | AccessDenied(app: string, keyId: string)
    | Rotated(keyId: string)
    | Revoked(keyId: string)
    | Authorized(app: string, keyId: string)
    | UnknownCommand(name: string)
    | Failed(error: Error)

  datatype Outcome = Outcome(state: State, reply: Reply)

  /** A reply that reports the command as carried out. */
  predicate Succeeded(r: Reply) {
    !(r.AccessDenied? || r.UnknownCommand? || r.Failed?)
  }

  /** The six commands the dispatcher recognises. */
  predicate Known(name: string) {
    name in {"generate", "encrypt", "decrypt", "rotate", "revoke", "authorize"}
  }

  /** The body of the `try` block: it either completes with an audit entry, meets an unknown command, or raises. */
  datatype Branch =
    | Completed(keys: KeyStore.Registry, perms: Access.Permissions, entry: Audit.Entry, reply: Reply)
    | Unknown
    | Raised(error: Error)

  /** The application named by the third `decrypt` argument, if there is one. */
  function DecryptApp(args: seq<string>): (app: Option<string>)
    ensures app.Some? <==> |args| > 2
    ensures app.Some? ==> app.value == args[2]
  {
    if |args| > 2 then Some(args[2]) else None
  }

  /** The access check runs only when an application name is given and is non-empty. */
  predicate Checked(app: Option<string>) {
    app.Some? && app.value != ""
  }

  /** A completed branch logs an entry for the command under its first argument, flagged with the reply's success. */
  predicate Conforms(b: Branch, name: string, args: seq<string>) {
    && !b.Unknown?
    && (b.Completed? ==>
         && |args| > 0
         && b.entry.action == name
         && (b.entry.success <==> Succeeded(b.reply))
         && !b.reply.Failed? && !b.reply.UnknownCommand?)
  }

  /** `generate <key_id>`: completes exactly when `create_key` accepts the id, and leaves its registry. */
  function Generate(cfg: Config, env: Env, st: State, args: seq<string>): (b: Branch)
    ensures Conforms(b, "generate", args)
    ensures |args| < 1 ==> b == Raised(MissingArgument)
    ensures b.Completed? <==> |args| >= 1 && !KeyStore.Active(st.keys, args[0])
    ensures b.Raised? && |args| >= 1 ==> b.error == Vault(KeyStore.KeyExists(args[0]))
    ensures b.Completed? ==>
      && b.keys == KeyStore.CreateKey(cfg.crypto, cfg.master, st.keys, args[0], env.draw).value
      && b.perms == st.perms
      && b.entry == Audit.Entry(env.loggedAt, "generate", args[0], None, true)
      && b.reply == Generated(args[0])
  {
    if |args| < 1 then Raised(MissingArgument)
    else match KeyStore.CreateKey(cfg.crypto, cfg.master, st.keys, args[0], env.draw)
      case Err(e) => Raised(Vault(e))
      case Ok(keys) => Completed(keys, st.perms, Audit.Entry(env.loggedAt, "generate", args[0], None, true), Generated(args[0]))
  }

  /** `encrypt <key_id> <plaintext...>`: completes exactly when `get_key` yields the key, and seals the joined words under it. */
  function Encrypt(cfg: Config, env: Env, st: State, args: seq<string>): (b: Branch)
    ensures Conforms(b, "encrypt", args)
    ensures |args| < 1 ==> b == Raised(MissingArgument)
    ensures b.Completed? <==> |args| >= 1 && KeyStore.GetKey(cfg.crypto, cfg.master, st.keys, args[0]).Ok?
    ensures b.Raised? && |args| >= 1 ==> b.error == Vault(KeyStore.GetKey(cfg.crypto, cfg.master, st.keys, args[0]).error)
    ensures b.Completed? ==>
      && b.keys == st.keys && b.perms == st.perms
      && b.entry == Audit.Entry(env.loggedAt, "encrypt", args[0], None, true)
      && b.reply == Encrypted(cfg.crypto.seal(KeyStore.GetKey(cfg.crypto, cfg.master, st.keys, args[0]).value,
                                              env.payloadNonce, Text.Join(args[1..], " ")))
  {
    if |args| < 1 then Raised(MissingArgument)
    else
      var plaintext := Text.Join(args[1..], " ");
      match KeyStore.GetKey(cfg.crypto, cfg.master, st.keys, args[0])
      case Err(e) => Raised(Vault(e))
      case Ok(key) =>
        Completed(st.keys, st.perms, Audit.Entry(env.loggedAt, "encrypt", args[0], None, true),
                  Encrypted(cfg.crypto.seal(key, env.payloadNonce, plaintext)))
  }

  /** Decrypt refuses: an application is named and it has no grant for the key id. */
  predicate Refused(perms: Access.Permissions, args: seq<string>)
    requires |args| >= 1
  {
    Checked(DecryptApp(args)) && !Access.CheckAccess(perms, DecryptApp(args).value, args[0])
  }

  /**
   `decrypt <key_id> <ciphertext> [<app_name>]`: the access check comes before
   any key access; both a refusal and a decryption log the named application.
   */
  function Decrypt(cfg: Config, env: Env, st: State, args: seq<string>): (b: Branch)
    ensures Conforms(b, "decrypt", args)
    ensures |args| < 2 ==> b == Raised(MissingArgument)
    ensures b.Completed? ==>
      && b.keys == st.keys && b.perms == st.perms
      && b.entry == Audit.Entry(env.loggedAt, "decrypt", args[0], DecryptApp(args), b.reply.Decrypted?)
    ensures |args| >= 2 && Refused(st.perms, args) ==>
      b.Completed? && b.reply == AccessDenied(args[2], args[0])
    ensures |args| >= 2 && !Refused(st.perms, args) ==>
      (b.Completed? <==>
         && KeyStore.GetKey(cfg.crypto, cfg.master, st.keys, args[0]).Ok?
         && cfg.crypto.open(KeyStore.GetKey(cfg.crypto, cfg.master, st.keys, args[0]).value, args[1]).Some?)
    ensures b.Completed? && b.reply.AccessDenied? ==> |args| >= 2 && Refused(st.perms, args)
    ensures b.Raised? && |args| >= 2 ==>
      b.error == (if KeyStore.GetKey(cfg.crypto, cfg.master, st.keys, args[0]).Err?
                  then Vault(KeyStore.GetKey(cfg.crypto, cfg.master, st.keys, args[0]).error)
                  else BadCiphertext)
    ensures b.Completed? && !b.reply.AccessDenied? ==>
      && b.reply.Decrypted?
      && Some(b.reply.plaintext) == cfg.crypto.open(KeyStore.GetKey(cfg.crypto, cfg.master, st.keys, args[0]).value, args[1])
  {
    if |args| < 2 then Raised(MissingArgument)
    else
      var app := DecryptApp(args);
      if Checked(app) && !Access.CheckAccess(st.perms, app.value, args[0]) then
        Completed(st.keys, st.perms, Audit.Entry(env.loggedAt, "decrypt", args[0], app, false), AccessDenied(app.value, args[0]))
      else match KeyStore.GetKey(cfg.crypto, cfg.master, st.keys, args[0])
        case Err(e) => Raised(Vault(e))
        case Ok(key) =>
          match cfg.crypto.open(key, args[1])
          case None => Raised(BadCiphertext)
          case Some(plaintext) =>
            Completed(st.keys, st.perms, Audit.Entry(env.loggedAt, "decrypt", args[0], app, true), Decrypted(plaintext))
  }

  /**
   `rotate <key_id>`, saved or not according to the configuration: it completes
   exactly for an id the registry holds, revoked or not.
   */
  function Rotate(cfg: Config, env: Env, st: State, args: seq<string>): (b: Branch)
    ensures Conforms(b, "rotate", args)
    ensures |args| < 1 ==> b == Raised(MissingArgument)
    ensures b.Completed? <==> |args| >= 1 && args[0] in st.keys
    ensures b.Raised? && |args| >= 1 ==> b.error == Vault(KeyStore.KeyNotFound(args[0]))
    ensures b.Completed? ==>
      && b.perms == st.perms
      && b.entry == Audit.Entry(env.loggedAt, "rotate", args[0], None, true)
      && b.reply == Rotated(args[0])
    ensures b.Completed? && !cfg.persistRotation ==> b.keys == st.keys
    ensures b.Completed? && cfg.persistRotation ==>
      b.keys == KeyStore.RotateKeyPersisted(cfg.crypto, cfg.master, st.keys, args[0], env.draw).value
  {
    if |args| < 1 then Raised(MissingArgument)
    else
      var rotated :=
        if cfg.persistRotation then KeyStore.RotateKeyPersisted(cfg.crypto, cfg.master, st.keys, args[0], env.draw)
        else KeyStore.RotateKey(cfg.crypto, cfg.master, st.keys, args[0], env.draw);
      match rotated
      case Err(e) => Raised(Vault(e))
      case Ok(keys) => Completed(keys, st.perms, Audit.Entry(env.loggedAt, "rotate", args[0], None, true), Rotated(args[0]))
  }

  /** `revoke <key_id>`: completes exactly for an id the registry holds, and leaves `revoke_key`'s registry. */
  function Revoke(cfg: Config, env: Env, st: State, args: seq<string>): (b: Branch)
    ensures Conforms(b, "revoke", args)
    ensures |args| < 1 ==> b == Raised(MissingArgument)
    ensures b.Completed? <==> |args| >= 1 && args[0] in st.keys
    ensures b.Raised? && |args| >= 1 ==> b.error == Vault(KeyStore.KeyNotFound(args[0]))
    ensures b.Completed? ==>
      && b.keys == KeyStore.RevokeKey(st.keys, args[0]).value
      && b.perms == st.perms
      && b.entry == Audit.Entry(env.loggedAt, "revoke", args[0], None, true)
      && b.reply == Revoked(args[0])
  {
    if |args| < 1 then Raised(MissingArgument)
    else match KeyStore.RevokeKey(st.keys, args[0])
      case Err(e) => Raised(Vault(e))
      case Ok(keys) => Completed(keys, st.perms, Audit.Entry(env.loggedAt, "revoke", args[0], None, true), Revoked(args[0]))
  }

  /**
   `authorize <app_name> <key_id>`: completes whenever both arguments are given,
   whatever the key registry holds; the entry files the key id, with the
   application beside it.
   */
  function Authorize(env: Env, st: State, args: seq<string>): (b: Branch)
    ensures Conforms(b, "authorize", args)
    ensures b.Completed? <==> |args| >= 2
    ensures !b.Completed? ==> b == Raised(MissingArgument)
    ensures b.Completed? ==>
      && b.keys == st.keys
      && b.perms == Access.AuthorizeApp(st.perms, args[0], args[1])
      && b.entry == Audit.Entry(env.loggedAt, "authorize", args[1], Some(args[0]), true)
      && b.reply == Authorized(args[0], args[1])
  {
    if |args| < 2 then Raised(MissingArgument)
    else
      Completed(st.keys, Access.AuthorizeApp(st.perms, args[0], args[1]),
                Audit.Entry(env.loggedAt, "authorize", args[1], Some(args[0]), true), Authorized(args[0], args[1]))
  }

  /** The dispatch on the command name. */
  function Attempt(cfg: Config, env: Env, st: State, cmd: Command): (b: Branch)
    ensures b.Unknown? <==> !Known(cmd.name)
    ensures Known(cmd.name) ==> Conforms(b, cmd.name, cmd.args)
    ensures b.Completed? ==>
      (b.perms == st.perms ||
       (cmd.name == "authorize" && |cmd.args| >= 2 && b.perms == Access.AuthorizeApp(st.perms, cmd.args[0], cmd.args[1])))
    ensures b.Completed? && b.keys != st.keys ==> cmd.name in {"generate", "revoke"} || (cfg.persistRotation && cmd.name == "rotate")
  {
    match cmd.name
    case "generate" => Generate(cfg, env, st, cmd.args)
    case "encrypt" => Encrypt(cfg, env, st, cmd.args)
    case "decrypt" => Decrypt(cfg, env, st, cmd.args)
    case "rotate" => Rotate(cfg, env, st, cmd.args)
    case "revoke" => Revoke(cfg, env, st, cmd.args)
    case "authorize" => Authorize(env, st, cmd.args)
    case _ => Unknown
  }

  /** The key-id column of a completed command's entry: authorize files its second argument, every other command its first. */
  function LoggedKey(cmd: Command): string
    requires |cmd.args| > 0
  {
    if cmd.name == "authorize" && |cmd.args| >= 2 then cmd.args[1] else cmd.args[0]
  }

  /** The application column of a completed command's entry: authorize and decrypt name one, the others none. */
  function LoggedApp(cmd: Command): Option<string> {
    if cmd.name == "authorize" && |cmd.args| >= 2 then Some(cmd.args[0])
    else if cmd.name == "decrypt" then DecryptApp(cmd.args)
    else None
  }

  /**
   `execute_command`: run the command; a completed command logs its entry, an
   unknown one logs nothing, and an exception logs one failure entry for the
   first argument when there is one.
   */
  function Step(cfg: Config, env: Env, st: State, cmd: Command): (o: Outcome)
    ensures |st.log| <= |o.state.log| <= |st.log| + 1 && o.state.log[..|st.log|] == st.log
    ensures |o.state.log| == |st.log| + 1 <==> Known(cmd.name) && |cmd.args| > 0
    ensures |o.state.log| == |st.log| + 1 ==> o.state.log[|st.log|].action == cmd.name
    ensures |o.state.log| == |st.log| + 1 ==> (o.state.log[|st.log|].success <==> Succeeded(o.reply))
    ensures o.reply.Failed? ==> o.state.keys == st.keys && o.state.perms == st.perms
    ensures o.reply.Failed? && |cmd.args| > 0 ==>
      o.state.log == st.log + [Audit.Entry(env.loggedAt, cmd.name, cmd.args[0], None, false)]
    ensures !Known(cmd.name) ==> o == Outcome(st, UnknownCommand(cmd.name))
    ensures o.state.perms == st.perms ||
      (cmd.name == "authorize" && |cmd.args| >= 2 && o.state.perms == Access.AuthorizeApp(st.perms, cmd.args[0], cmd.args[1]))
    ensures o.state.keys != st.keys ==> cmd.name in {"generate", "revoke"} || (cfg.persistRotation && cmd.name == "rotate")
    ensures Known(cmd.name) && |cmd.args| > 0 && !o.reply.Failed? ==>
      o.state.log == st.log + [Audit.Entry(env.loggedAt, cmd.name, LoggedKey(cmd), LoggedApp(cmd), Succeeded(o.reply))]
    ensures cmd.name == "generate" && |cmd.args| > 0 ==>
      && (o.reply.Generated? <==> !KeyStore.Active(st.keys, cmd.args[0]))
      && (o.reply.Generated? ==> o.state.keys == KeyStore.CreateKey(cfg.crypto, cfg.master, st.keys, cmd.args[0], env.draw).value)
    ensures cmd.name == "revoke" && |cmd.args| > 0 ==>
      && (o.reply.Revoked? <==> cmd.args[0] in st.keys)
      && (o.reply.Revoked? ==> o.state.keys == KeyStore.RevokeKey(st.keys, cmd.args[0]).value)
    ensures cmd.name == "rotate" && |cmd.args| > 0 ==>
      && (o.reply.Rotated? <==> cmd.args[0] in st.keys)
      && (o.reply.Rotated? && cfg.persistRotation ==>
            o.state.keys == KeyStore.RotateKeyPersisted(cfg.crypto, cfg.master, st.keys, cmd.args[0], env.draw).value)
    ensures cmd.name == "authorize" ==> (o.reply.Authorized? <==> |cmd.args| >= 2)
    ensures o.reply.AccessDenied? ==> cmd.name == "decrypt" && |cmd.args| >= 2 && Refused(st.perms, cmd.args)
    ensures o.reply.UnknownCommand? <==> !Known(cmd.name)
  {
    match Attempt(cfg, env, st, cmd)
    case Completed(keys, perms, entry, reply) => Outcome(State(keys, perms, Audit.Log(st.log, entry)), reply)
    case Unknown => Outcome(st, UnknownCommand(cmd.name))
    case Raised(e) =>
      var log := if |cmd.args| > 0 then Audit.Log(st.log, Audit.Entry(env.loggedAt, cmd.name, cmd.args[0], None, false)) else st.log;
      Outcome(State(st.keys, st.perms, log), Failed(e))
  }

  /** The line handling of `run_command_file`: blank and comment lines yield nothing, others a command and its arguments. */
  function ParseLine(line: string): (r: Option<Command>)
    ensures r.Some? ==> Text.IsWord(r.value.name) && r.value.name[0] != '#'
    ensures r.Some? ==> forall i :: 0 <= i < |r.value.args| ==> Text.IsWord(r.value.args[i])
  {
    var t := Text.Strip(line);
    if |t| == 0 || t[0] == '#' then None
    else
      var parts := Text.Words(t);
      Some(Command(parts[0], parts[1..]))
  }

  /** The commands a command file holds, in file order. */
  function Commands(lines: seq<string>): (cs: seq<Command>)
    ensures |cs| <= |lines|
    ensures forall i :: 0 <= i < |cs| ==> Text.IsWord(cs[i].name) && cs[i].name[0] != '#'
    decreases |lines|
  {
    if |lines| == 0 then []
    else match ParseLine(lines[0])
      case None => Commands(lines[1..])
      case Some(c) => [c] + Commands(lines[1..])
  }

  /** How many of the commands write an audit entry. */
  function AuditedCount(cmds: seq<Command>): (n: nat)
    ensures n <= |cmds|
    decreases |cmds|
  {
    if |cmds| == 0 then 0
    else (if Known(cmds[0].name) && |cmds[0].args| > 0 then 1 else 0) + AuditedCount(cmds[1..])
  }

  /** Runs commands in order; the i-th command draws from the i-th environment. */
  function Run(cfg: Config, st: State, cmds: seq<Command>, envs: seq<Env>): (end: State)
    requires |envs| == |cmds|
    ensures |end.log| == |st.log| + AuditedCount(cmds)
    ensures end.log[..|st.log|] == st.log
    decreases |cmds|
  {
    if |cmds| == 0 then st
    else Run(cfg, Step(cfg, envs[0], st, cmds[0]).state, cmds[1..], envs[1..])
  }

  /** `run_command_file` over the lines of the file. */
  function RunFile(cfg: Config, st: State, lines: seq<string>, envs: seq<Env>): (end: State)
    requires |envs| == |Commands(lines)|
    ensures |st.log| <= |end.log| <= |st.log| + |lines|
    ensures end.log[..|st.log|] == st.log
  {
    Run(cfg, st, Commands(lines), envs)
  }
}
