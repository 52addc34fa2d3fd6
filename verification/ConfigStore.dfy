/** The options and the configuration file, changed step by step as ELinks does it; each method is
    proved against the function of ConfigSave that says what it does. */
module ConfigStores {
  import opened Basics
  import opened OptionText
  import opened ConfigSave

  class ConfigStore {
    /** The names of the options, in the order of the option tree. */
    const order: seq<string>
    var options: Options
    /** The commands of the configuration file. */
    var file: seq<Command>

    ghost predicate Valid()
      reads this
    {
      forall n :: n in order <==> n in options
    }

    ghost function Now(): State
      reads this
    {
      State(file, options)
    }

    /** Start with the built-in options and load the configuration file. */
    constructor (order: seq<string>, base: Options, file: seq<Command>)
      requires forall n :: n in order <==> n in base
      ensures Valid() && this.order == order && Now() == State(file, Load(file, base))
    {
      this.order, this.options, this.file := order, base, file;
      new;
      LoadFile(file);
    }

    /** parse_config_file, when loading. */
    method LoadFile(cmds: seq<Command>)
      requires Valid()
      modifies this`options
      ensures Valid() && options == Load(cmds, old(options))
      decreases cmds
    {
      assert cmds[0..] == cmds;
      for i := 0 to |cmds|
        invariant Valid() && Load(cmds, old(options)) == Load(cmds[i..], options)
      {
        var c := cmds[i];
        assert cmds[i..][1..] == cmds[i + 1..];
        match c {
          case Set(n, v) =>
            if n in options { options := options[n := options[n].(value := v)]; }
          case Unset(n) =>
            if n in options { options := options[n := options[n].(deleted := true, touched := true)]; }
          case Include(body) =>
            LoadFile(body);
        }
      }
    }

    method PrepareMustSaveFlags(setAll: bool)
      requires Valid()
      modifies this`options
      ensures Valid() && options == Prepare(old(options), setAll)
    {
      for i := 0 to |order|
        invariant options.Keys == old(options).Keys
        invariant forall n :: n in options ==> n in order[..i] ==> options[n] == Prepare(old(options), setAll)[n]
        invariant forall n :: n in options ==> n !in order[..i] ==> options[n] == old(options)[n]
      {
        var n := order[i];
        var o := options[n];
        if setAll || o.touched || o.deleted {
          options := options[n := o.(mustSave := true)];
        } else {
          options := options[n := o.(mustSave := false)];
        }
        assert order[..i + 1] == order[..i] + [n];
      }
      assert order[..|order|] == order;
    }

    /** parse_config_file on an included file while saving: nothing is mirrored. */
    method ScanFile(cmds: seq<Command>)
      requires Valid()
      modifies this`options
      ensures Valid() && options == Scan(cmds, old(options))
      decreases cmds
    {
      assert cmds[0..] == cmds;
      for i := 0 to |cmds|
        invariant Valid() && Scan(cmds, old(options)) == Scan(cmds[i..], options)
      {
        var c := cmds[i];
        assert cmds[i..][1..] == cmds[i + 1..];
        match c {
          case Set(n, v) =>
            if n in options {
              var o := options[n];
              options := options[n := o.(mustSave := !(!o.deleted && o.value == v))];
            }
          case Unset(n) =>
            if n in options {
              var o := options[n];
              options := options[n := o.(mustSave := !o.deleted)];
            }
          case Include(body) =>
            ScanFile(body);
        }
      }
    }

    /** parse_config_file on the configuration file while saving: commands are mirrored, and the
        ones about live or deleted options are rewritten. */
    method MirrorFile(cmds: seq<Command>) returns (mirror: seq<Command>)
      requires Valid()
      modifies this`options
      ensures Valid() && options == Mirror(cmds, old(options))
      ensures mirror == Rewrite(cmds, old(options))
    {
      hide Mirror, Rewrite;
      assert cmds[0..] == cmds;
      mirror := [];
      for i := 0 to |cmds|
        invariant Valid() && Mirror(cmds, old(options)) == Mirror(cmds[i..], options)
        invariant Rewrite(cmds, old(options)) == mirror + Rewrite(cmds[i..], options)
      {
        var c := cmds[i];
        MirrorStep(cmds, i, options);
        match c {
          case Include(body) =>
            ScanFile(body);
            mirror := mirror + [c];
          case _ =>
            if c.name in options {
              var o := options[c.name];
              mirror := mirror + [if o.deleted then Unset(c.name) else Set(c.name, o.value)];
              options := options[c.name := o.(mustSave := false)];
            } else {
              mirror := mirror + [c];
            }
        }
      }
      NothingLeft(options);
      assert cmds[|cmds|..] == [];
    }

    /** smart_config_string. */
    method AppendOptions() returns (out: seq<Command>)
      requires Valid()
      ensures out == Appended(order, options)
    {
      out := [];
      assert order[0..] == order;
      for i := 0 to |order|
        invariant Appended(order, options) == out + Appended(order[i..], options)
      {
        assert order[i..][1..] == order[i + 1..];
        var o := options[order[i]];
        if o.mustSave {
          out := out + [if o.deleted then Unset(order[i]) else Set(order[i], o.value)];
        }
      }
    }

    method UntouchOptions()
      requires Valid()
      modifies this`options
      ensures Valid() && options == Untouch(old(options))
    {
      for i := 0 to |order|
        invariant options.Keys == old(options).Keys
        invariant forall n :: n in options ==> n in order[..i] ==> options[n] == Untouch(old(options))[n]
        invariant forall n :: n in options ==> n !in order[..i] ==> options[n] == old(options)[n]
      {
        var n := order[i];
        options := options[n := options[n].(touched := false)];
        assert order[..i + 1] == order[..i] + [n];
      }
      assert order[..|order|] == order;
    }

    /** create_config_string and write_config_file; `written` tells whether the file could be
        written. */
    method WriteConfigFile(style: Style, written: bool)
      requires Valid()
      modifies this
      ensures Valid() && Now() == Act(Save(style, written), old(Now()), order)
    {
      PrepareMustSaveFlags(SetsAll(style));
      var config := [];
      ghost var prepared := options;
      SameRewrite(file, old(options), prepared);
      if style != Fresh {
        config := MirrorFile(file);
      }
      if style != Alter {
        var appended := AppendOptions();
        config := config + appended;
      }
      if written {
        file := config;
        UntouchOptions();
      }
    }

    /** Set an option from the user interface, which ends in option_changed. */
    method ChangeOption(n: string, v: Value)
      requires Valid() && n in options
      modifies this`options
      ensures Valid() && Now() == Act(Change(n, v), old(Now()), order)
    {
      options := options[n := options[n].(value := v)];
      options := options[n := options[n].(touched := true)];
    }

    method MarkOptionAsDeleted(n: string)
      requires Valid() && n in options
      modifies this`options
      ensures Valid() && Now() == Act(Delete(n), old(Now()), order)
    {
      options := options[n := options[n].(deleted := true, touched := true)];
    }
  }
}
