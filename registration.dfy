/**
 * Two checks of src/index.ts: checkForValidFile, which decides by its
 * extension whether a file under the commands directory is a module to
 * load, and areCommandsRegistered, which compares the bot's slash commands
 * with those registered with Discord and reports a mismatch (true) when
 * they must be registered again.
 */
module CommandRegistration {
  import opened Text

  // ---------------------------------------------------------------------------
  // checkForValidFile

  /** checkForValidFile: the text after the last '.' (the whole name when
      there is none) is "js" or "ts". */
  function CheckForValidFile(file: string): (valid: bool) {
    var extension := Last(Split(file, '.'));
    extension == "js" || extension == "ts"
  }

  /** The name is ext itself or ends in '.' followed by ext. */
  predicate HasExtension(file: string, ext: string) {
    file == ext || EndsWith(file, "." + ext)
  }

  /** The extension checkForValidFile reads is one the name has. */
  lemma ExtensionIsSuffix(file: string)
    ensures HasExtension(file, Last(Split(file, '.')))
  {
    var extension := Last(Split(file, '.'));
    SplitLast(file, '.');
    if |extension| < |file| {
      assert file[|file| - |extension| - 1..] == [file[|file| - |extension| - 1]] + file[|file| - |extension|..];
    }
  }

  /** A name has one extension without '.': the one checkForValidFile
      reads. */
  lemma ExtensionUnique(file: string, ext: string)
    requires '.' !in ext && HasExtension(file, ext)
    ensures Last(Split(file, '.')) == ext
  {
    if file == ext {
      SplitWithoutSeparator(file, '.');
    } else {
      var k := |file| - |ext| - 1;
      assert file[k..] == "." + ext;
      assert file == file[..k] + ['.'] + ext;
      LastSplitAfter(file[..k], '.', ext);
    }
  }

  /** A file is valid exactly when its name is "js" or "ts" or ends in ".js"
      or ".ts". */
  lemma ValidFileIff(file: string)
    ensures CheckForValidFile(file) <==> HasExtension(file, "js") || HasExtension(file, "ts")
  {
    ExtensionIsSuffix(file);
    if HasExtension(file, "js") {
      ExtensionUnique(file, "js");
    } else if HasExtension(file, "ts") {
      ExtensionUnique(file, "ts");
    }
  }

  // ---------------------------------------------------------------------------
  // areCommandsRegistered

  /** An option of a slash command; required is None when the field is
      absent. */
  datatype CommandOption = CommandOption(name: string, description: string, required: Option<bool>, kind: int)

  /** A slash command; options is None when the field is absent. */
  datatype Command = Command(name: string, description: string, options: Option<seq<CommandOption>>)

  /** options || [] */
  function OptionsOf(c: Command): seq<CommandOption> {
    if c.options.Some? then c.options.value else []
  }

  /** An absent required flag counts as false. */
  function Required(o: CommandOption): bool {
    if o.required.Some? then o.required.value else false
  }

  function CommandName(c: Command): string { c.name }

  function OptionName(o: CommandOption): string { o.name }

  /** items.find(r => r.name === name), as the index found; nameOf reads the
      name of an entry (a command or an option). */
  function Find<T>(items: seq<T>, name: string, nameOf: T -> string): (r: Option<nat>)
    ensures r.Some? ==> r.value < |items| && nameOf(items[r.value]) == name
                        && forall k :: 0 <= k < r.value ==> nameOf(items[k]) != name
    ensures r.None? ==> forall k :: 0 <= k < |items| ==> nameOf(items[k]) != name
  {
    if items == [] then None
    else if nameOf(items[0]) == name then Some(0)
    else match Find(items[1..], name, nameOf)
      case None => None
      case Some(k) => Some(k + 1)
  }

  /** Lists whose entries have the same names, position by position, find
      the same index. */
  lemma {:induction false} FindSameNames<T>(xs: seq<T>, ys: seq<T>, name: string, nameOf: T -> string)
    requires |xs| == |ys| && forall i :: 0 <= i < |xs| ==> nameOf(xs[i]) == nameOf(ys[i])
    ensures Find(xs, name, nameOf) == Find(ys, name, nameOf)
  {
    if xs != [] && nameOf(xs[0]) != name {
      FindSameNames(xs[1..], ys[1..], name, nameOf);
    }
  }

  /** The check of one local option: no registered option of its name, or
      the first one differs in name, description, required flag or type. */
  predicate OptionDiffers(o: CommandOption, registered: seq<CommandOption>) {
    match Find(registered, o.name, OptionName)
    case None => true
    case Some(k) =>
      o.name != registered[k].name || o.description != registered[k].description
      || Required(o) != Required(registered[k]) || o.kind != registered[k].kind
  }

  /** The loop over the local options: some option differs. */
  function AnyOptionDiffers(actual: seq<CommandOption>, registered: seq<CommandOption>): (b: bool)
    ensures b <==> exists j :: 0 <= j < |actual| && OptionDiffers(actual[j], registered)
  {
    if actual == [] then false
    else OptionDiffers(actual[0], registered) || AnyOptionDiffers(actual[1..], registered)
  }

  /** The check of one local command: no registered command of its name,
      or the first one differs in description, number of options or some
      option. */
  predicate CommandDiffers(c: Command, registered: seq<Command>) {
    match Find(registered, c.name, CommandName)
    case None => true
    case Some(k) =>
      registered[k].description != c.description
      || |OptionsOf(c)| != |OptionsOf(registered[k])|
      || AnyOptionDiffers(OptionsOf(c), OptionsOf(registered[k]))
  }

  /** The loop over the local commands: some command differs. */
  function AnyCommandDiffers(all: seq<Command>, registered: seq<Command>): (b: bool)
    ensures b <==> exists i :: 0 <= i < |all| && CommandDiffers(all[i], registered)
  {
    if all == [] then false
    else CommandDiffers(all[0], registered) || AnyCommandDiffers(all[1..], registered)
  }

  /** areCommandsRegistered: true (a mismatch) when the lists differ in
      length or some local command differs from its registered namesake. */
  function AreCommandsRegistered(all: seq<Command>, registered: seq<Command>): (mismatch: bool)
    ensures mismatch <==> |all| != |registered| || exists i :: 0 <= i < |all| && CommandDiffers(all[i], registered)
  {
    |all| != |registered| || AnyCommandDiffers(all, registered)
  }

  /** An absent required flag and a false one are the same to the check,
      on the local option and on any registered option alike. */
  lemma AbsentRequiredIsFalse(o: CommandOption, registered: seq<CommandOption>, k: nat)
    requires k < |registered|
    ensures OptionDiffers(o.(required := None), registered) == OptionDiffers(o.(required := Some(false)), registered)
    ensures var absent := registered[k := registered[k].(required := None)];
            var unset := registered[k := registered[k].(required := Some(false))];
            OptionDiffers(o, absent) == OptionDiffers(o, unset)
  {
    var absent := registered[k := registered[k].(required := None)];
    var unset := registered[k := registered[k].(required := Some(false))];
    FindSameNames(absent, unset, o.name, OptionName);
  }

  /** No two entries share a name. */
  predicate UniqueCommandNames(cs: seq<Command>) {
    forall i, j :: 0 <= i < j < |cs| ==> cs[i].name != cs[j].name
  }

  predicate UniqueOptionNames(os: seq<CommandOption>) {
    forall i, j :: 0 <= i < j < |os| ==> os[i].name != os[j].name
  }

  /** Each option finds itself in its own list when names are unique. */
  lemma OptionsMatchThemselves(os: seq<CommandOption>)
    requires UniqueOptionNames(os)
    ensures !AnyOptionDiffers(os, os)
  {
    forall j | 0 <= j < |os|
      ensures !OptionDiffers(os[j], os)
    {
      assert Find(os, os[j].name, OptionName) == Some(j);
    }
  }

  /** A registered list identical to the local one, with unique command
      names and unique option names in each command, is no mismatch. */
  lemma IdenticalListsMatch(all: seq<Command>)
    requires UniqueCommandNames(all)
    requires forall i :: 0 <= i < |all| ==> UniqueOptionNames(OptionsOf(all[i]))
    ensures !AreCommandsRegistered(all, all)
  {
    forall i | 0 <= i < |all|
      ensures !CommandDiffers(all[i], all)
    {
      assert Find(all, all[i].name, CommandName) == Some(i);
      OptionsMatchThemselves(OptionsOf(all[i]));
    }
  }

  /** Without unique names an identical list can mismatch: every command
      is compared with the first of its name, so of two namesakes that
      differ in description or number of options one differs from it. */
  lemma DuplicateNamesMismatch(all: seq<Command>, i: nat, j: nat)
    requires i < j < |all| && all[i].name == all[j].name
    requires all[i].description != all[j].description || |OptionsOf(all[i])| != |OptionsOf(all[j])|
    ensures AreCommandsRegistered(all, all)
  {
    var k := Find(all, all[j].name, CommandName).value;
    if all[k].description != all[j].description || |OptionsOf(all[k])| != |OptionsOf(all[j])| {
      assert CommandDiffers(all[j], all);
    } else {
      assert Find(all, all[i].name, CommandName) == Some(k);
      assert CommandDiffers(all[i], all);
    }
  }
}
