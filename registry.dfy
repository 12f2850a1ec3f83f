/**
 * The command registry: the descriptor that `registerCommand` stores and the
 * `Map` from command names and aliases to descriptors.
 */
module Registry {

  import opened Wrappers
  import opened OrderedMaps

  /** The code a descriptor runs.  Each built-in handler of the command
      modules has its own constructor; `Bootup` is the asynchronous replay of
      the boot animation, and `External` stands for a handler whose effect
      lies outside this model (matrix rain, settings panel, CRT tuner, theme
      switcher), named by a tag. */
  datatype Handler =
    | Help | Man | Clear | Date | Whoami | Echo
    | Ls | Cd | Cat | Tree | Pwd
    | Touch | Mkdir | Rm | Cp | Mv | Head | Tail | Grep | Wc | Sort | History | Env
    | Bootup
    | External(tag: string)

  /** The optional documentation object.  An absent `usage` and an empty one
      behave alike (`usage || cmdName`), so both are `""`; the other fields
      are checked for presence only, so an empty list still prints its
      heading.  Options keep the insertion order of the object literal. */
  datatype Documentation = Documentation(
    usage: string,
    examples: Option<seq<string>>,
    notes: Option<seq<string>>,
    options: Option<seq<(string, string)>>)

  /** The descriptor shared by a command's name and all of its aliases. */
  datatype Command = Command(
    name: string,
    description: string,
    handler: Handler,
    aliases: seq<string>,
    documentation: Option<Documentation>,
    hidden: bool)

  /** `this.commands`: names and aliases in insertion order. */
  type Commands = OrderedMap<string, Command>

  /** The descriptor `registerCommand` builds from its arguments, where a
      missing alias list, documentation or hidden flag is `None`. */
  function Describe(name: string, description: string, handler: Handler,
                    aliases: Option<seq<string>>, documentation: Option<Documentation>,
                    hidden: Option<bool>): Command
  {
    Command(name, description, handler,
            if aliases.Some? then aliases.value else [],
            documentation,
            hidden == Some(true))
  }

  /** Omitted arguments default to no aliases, no documentation and a
      visible command. */
  lemma DescribeDefaults(name: string, description: string, handler: Handler)
    ensures Describe(name, description, handler, None, None, None)
         == Command(name, description, handler, [], None, false)
    ensures Describe(name, description, handler, None, None, None).aliases == []
  {
  }

  /** The registry after `set(k, cmd)` for each key `k` of `keys` in turn. */
  function BindAll(m: Commands, keys: seq<string>, cmd: Command): (r: Commands)
    requires Valid(m)
    ensures Valid(r)
    decreases |keys|
  {
    if keys == [] then m
    else Put(BindAll(m, keys[..|keys| - 1], cmd), keys[|keys| - 1], cmd)
  }

  /** The keys a registration sets: the name, then every alias. */
  function KeysOf(cmd: Command): (r: seq<string>)
    ensures |r| == |cmd.aliases| + 1 && r[0] == cmd.name
    ensures forall i :: 0 <= i < |cmd.aliases| ==> r[i + 1] == cmd.aliases[i]
  {
    [cmd.name] + cmd.aliases
  }

  /** `registerCommand`: the name and then each alias mapped to the one
      descriptor. */
  function Register(m: Commands, cmd: Command): (r: Commands)
    requires Valid(m)
    ensures Valid(r)
  {
    BindAll(m, KeysOf(cmd), cmd)
  }

  /** Binding one more key of a list binds it on top of the shorter prefix. */
  lemma BindPrefixStep(m: Commands, keys: seq<string>, j: nat, cmd: Command)
    requires Valid(m) && j < |keys|
    ensures BindAll(m, keys[..j + 1], cmd) == Put(BindAll(m, keys[..j], cmd), keys[j], cmd)
  {
    var p := keys[..j + 1];
    assert p[..|p| - 1] == keys[..j];
    assert p[|p| - 1] == keys[j];
  }

  /** After binding, every bound key answers with the descriptor and every
      other key answers as before. */
  lemma {:induction false} BindAllEffect(m: Commands, keys: seq<string>, cmd: Command, k: string)
    requires Valid(m)
    ensures Get(BindAll(m, keys, cmd), k) == if k in keys then Some(cmd) else Get(m, k)
    decreases |keys|
  {
    if keys != [] {
      var init := keys[..|keys| - 1];
      BindAllEffect(m, init, cmd, k);
      assert keys == init + [keys[|keys| - 1]];
    }
  }

  /** Binding keeps the keys already present in their places and appends
      only bound keys, each once. */
  lemma {:induction false} BindAllOrder(m: Commands, keys: seq<string>, cmd: Command)
    requires Valid(m)
    ensures |m.keys| <= |BindAll(m, keys, cmd).keys|
    ensures BindAll(m, keys, cmd).keys[..|m.keys|] == m.keys
    ensures forall i :: |m.keys| <= i < |BindAll(m, keys, cmd).keys| ==>
              BindAll(m, keys, cmd).keys[i] in keys
    decreases |keys|
  {
    if keys != [] {
      var init := keys[..|keys| - 1];
      BindAllOrder(m, init, cmd);
      var before := BindAll(m, init, cmd);
      var k := keys[|keys| - 1];
      assert BindAll(m, keys, cmd) == Put(before, k, cmd);
      if k !in before.items {
        assert Put(before, k, cmd).keys == before.keys + [k];
      }
      forall i | |m.keys| <= i < |BindAll(m, keys, cmd).keys|
        ensures BindAll(m, keys, cmd).keys[i] in keys
      {
        if i < |before.keys| {
          assert before.keys[i] in init;
        }
      }
    }
  }

  /** The property `registerCommand` promises: the name and every alias
      lead to the one shared descriptor, every other key is untouched, and
      keys registered earlier keep their place in the order. */
  lemma RegisterEffect(m: Commands, cmd: Command, k: string)
    requires Valid(m)
    ensures Get(Register(m, cmd), cmd.name) == Some(cmd)
    ensures k in cmd.aliases ==> Get(Register(m, cmd), k) == Some(cmd)
    ensures k != cmd.name && k !in cmd.aliases ==> Get(Register(m, cmd), k) == Get(m, k)
    ensures |m.keys| <= |Register(m, cmd).keys|
    ensures Register(m, cmd).keys[..|m.keys|] == m.keys
  {
    BindAllEffect(m, KeysOf(cmd), cmd, k);
    BindAllEffect(m, KeysOf(cmd), cmd, cmd.name);
    BindAllOrder(m, KeysOf(cmd), cmd);
  }
}
