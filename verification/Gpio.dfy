/** GPIO lines: validation of the configuration, and the manager that obtains lines from the
    kernel, rolls back when it cannot get them all, and gives every one back. */
module Gpio {
  import opened Wrappers
  import opened Text
  import opened DiscoveryTopics

  datatype OutputConfig = OutputConfig(chip: string, line: int, initial: bool)

  /** What the debounce text reads as. */
  datatype Debounce = Unset | Malformed | Lasting(nanoseconds: int)

  datatype InputConfig = InputConfig(chip: string, line: int, bias: string, debounce: Debounce)

  datatype GpioConfig = GpioConfig(outputs: map<string, OutputConfig>, inputs: map<string, InputConfig>)

  // ---------- validation ----------

  predicate ValidOutput(name: string, o: OutputConfig) {
    MatchesIdPattern(name) && o.line >= 0
  }

  predicate PositiveDebounce(d: Debounce) {
    d.Unset? || (d.Lasting? && d.nanoseconds > 0)
  }

  predicate ValidInput(name: string, i: InputConfig) {
    MatchesIdPattern(name) && i.line >= 0 && PositiveDebounce(i.debounce)
    && (i.bias == "disabled" || i.bias == "pull_up" || i.bias == "pull_down")
  }

  /** Every entry is well formed and no two entries name the same chip and line. */
  ghost predicate ValidGpio(c: GpioConfig) {
    && (forall n :: n in c.outputs ==> ValidOutput(n, c.outputs[n]))
    && (forall n :: n in c.inputs ==> ValidInput(n, c.inputs[n]))
    && (forall m, n :: m in c.outputs && n in c.outputs && m != n ==>
          !(c.outputs[m].chip == c.outputs[n].chip && c.outputs[m].line == c.outputs[n].line))
    && (forall m, n :: m in c.inputs && n in c.inputs && m != n ==>
          !(c.inputs[m].chip == c.inputs[n].chip && c.inputs[m].line == c.inputs[n].line))
    && (forall m, n :: m in c.outputs && n in c.inputs ==>
          !(c.outputs[m].chip == c.inputs[n].chip && c.outputs[m].line == c.inputs[n].line))
  }

  /** The same without a word about how it is decided: names, line numbers, biases and debounces
      are in range, and a chip and line belong to at most one name of either kind. */
  lemma ValidGpioInPlainTerms(c: GpioConfig)
    ensures ValidGpio(c) <==>
              && (forall n :: n in c.outputs ==> MatchesIdPattern(n) && c.outputs[n].line >= 0)
              && (forall n :: n in c.inputs ==>
                    && MatchesIdPattern(n) && c.inputs[n].line >= 0
                    && c.inputs[n].bias in ["disabled", "pull_up", "pull_down"]
                    && (c.inputs[n].debounce.Lasting? ==> c.inputs[n].debounce.nanoseconds > 0)
                    && !c.inputs[n].debounce.Malformed?)
              && (forall chip, line: int, m, n :: m in Users(c, chip, line) && n in Users(c, chip, line) ==> m == n)
  {
    if ValidGpio(c) {
      forall chip, line: int, m, n | m in Users(c, chip, line) && n in Users(c, chip, line) ensures m == n {
      }
    }
    if forall chip, line: int, m, n :: m in Users(c, chip, line) && n in Users(c, chip, line) ==> m == n {
      PairsDiffer(c);
    }
  }

  datatype User = OutputUser(name: string) | InputUser(name: string)

  /** Everything that is configured to use a line. */
  function Users(c: GpioConfig, chip: string, line: int): set<User> {
    (set n | n in c.outputs && c.outputs[n].chip == chip && c.outputs[n].line == line :: OutputUser(n))
    + (set n | n in c.inputs && c.inputs[n].chip == chip && c.inputs[n].line == line :: InputUser(n))
  }

  lemma PairsDiffer(c: GpioConfig)
    requires forall chip, line: int, m, n :: m in Users(c, chip, line) && n in Users(c, chip, line) ==> m == n
    ensures forall m, n :: m in c.outputs && n in c.outputs && m != n ==>
              !(c.outputs[m].chip == c.outputs[n].chip && c.outputs[m].line == c.outputs[n].line)
    ensures forall m, n :: m in c.inputs && n in c.inputs && m != n ==>
              !(c.inputs[m].chip == c.inputs[n].chip && c.inputs[m].line == c.inputs[n].line)
    ensures forall m, n :: m in c.outputs && n in c.inputs ==>
              !(c.outputs[m].chip == c.inputs[n].chip && c.outputs[m].line == c.inputs[n].line)
  {
    forall n | n in c.outputs ensures OutputUser(n) in Users(c, c.outputs[n].chip, c.outputs[n].line) {
    }
    forall n | n in c.inputs ensures InputUser(n) in Users(c, c.inputs[n].chip, c.inputs[n].line) {
    }
  }

  /** Walks both maps in whatever order, remembering each "chip:line" text; accepts exactly the
      valid configurations, because that text determines chip and line. */
  method ValidateGPIO(c: GpioConfig) returns (ok: bool)
    ensures ok <==> ValidGpio(c)
  {
    var usedLines: set<string> := {};
    var left := c.outputs.Keys;
    ghost var seenOut: set<string> := {};
    while left != {}
      invariant seenOut !! left && seenOut + left == c.outputs.Keys
      invariant forall n :: n in seenOut ==> ValidOutput(n, c.outputs[n])
      invariant forall n :: n in seenOut ==> Numbered(c.outputs[n].chip, c.outputs[n].line) in usedLines
      invariant forall k :: k in usedLines ==>
                  exists n :: n in seenOut && k == Numbered(c.outputs[n].chip, c.outputs[n].line)
      invariant forall m, n :: m in seenOut && n in seenOut && m != n ==>
                  !(c.outputs[m].chip == c.outputs[n].chip && c.outputs[m].line == c.outputs[n].line)
      decreases left
    {
      var name :| name in left;
      left := left - {name};
      var output := c.outputs[name];
      if !MatchesIdPattern(name) || output.line < 0 {
        return false;
      }
      var key := Numbered(output.chip, output.line);
      if key in usedLines {
        ghost var n :| n in seenOut && key == Numbered(c.outputs[n].chip, c.outputs[n].line);
        NumberedInjective(c.outputs[n].chip, c.outputs[n].line, output.chip, output.line);
        return false;
      }
      usedLines := usedLines + {key};
      seenOut := seenOut + {name};
    }
    ok := ValidateInputs(c, usedLines);
  }

  ghost predicate OutputsAccepted(c: GpioConfig) {
    && (forall n :: n in c.outputs ==> ValidOutput(n, c.outputs[n]))
    && (forall m, n :: m in c.outputs && n in c.outputs && m != n ==>
          !(c.outputs[m].chip == c.outputs[n].chip && c.outputs[m].line == c.outputs[n].line))
  }

  /** The inputs seen so far are well formed, clash with nothing, and the lines used are theirs
      and the outputs'. */
  ghost predicate InputsSeen(c: GpioConfig, seen: set<string>, outputLines: set<string>, usedLines: set<string>)
    requires seen <= c.inputs.Keys
  {
    && outputLines <= usedLines
    && (forall n :: n in seen ==> ValidInput(n, c.inputs[n]))
    && (forall n :: n in seen ==> Numbered(c.inputs[n].chip, c.inputs[n].line) in usedLines)
    && (forall k :: k in usedLines && k !in outputLines ==>
          exists n :: n in seen && k == Numbered(c.inputs[n].chip, c.inputs[n].line))
    && (forall m, n :: m in seen && n in seen && m != n ==>
          !(c.inputs[m].chip == c.inputs[n].chip && c.inputs[m].line == c.inputs[n].line))
    && (forall m, n :: m in c.outputs && n in seen ==>
          !(c.outputs[m].chip == c.inputs[n].chip && c.outputs[m].line == c.inputs[n].line))
  }

  lemma OneMoreInput(
    c: GpioConfig, seen: set<string>, outputLines: set<string>, usedLines: set<string>, name: string)
    requires OutputsAccepted(c) && seen <= c.inputs.Keys && InputsSeen(c, seen, outputLines, usedLines)
    requires forall n :: n in c.outputs ==> Numbered(c.outputs[n].chip, c.outputs[n].line) in outputLines
    requires name in c.inputs && ValidInput(name, c.inputs[name])
    requires Numbered(c.inputs[name].chip, c.inputs[name].line) !in usedLines
    ensures InputsSeen(c, seen + {name}, outputLines,
                       usedLines + {Numbered(c.inputs[name].chip, c.inputs[name].line)})
  {
  }

  /** The input half, starting from the lines the outputs use. */
  method ValidateInputs(c: GpioConfig, outputLines: set<string>) returns (ok: bool)
    requires OutputsAccepted(c)
    requires forall n :: n in c.outputs ==> Numbered(c.outputs[n].chip, c.outputs[n].line) in outputLines
    requires forall k :: k in outputLines ==>
               exists n :: n in c.outputs && k == Numbered(c.outputs[n].chip, c.outputs[n].line)
    ensures ok <==> ValidGpio(c)
  {
    var usedLines := outputLines;
    var left := c.inputs.Keys;
    ghost var seen: set<string> := {};
    while left != {}
      invariant seen !! left && seen + left == c.inputs.Keys
      invariant InputsSeen(c, seen, outputLines, usedLines)
      decreases left
    {
      var name :| name in left;
      left := left - {name};
      var input := c.inputs[name];
      if !MatchesIdPattern(name) || input.line < 0 {
        return false;
      }
      if input.bias != "disabled" && input.bias != "pull_up" && input.bias != "pull_down" {
        return false;
      }
      if input.debounce.Malformed? || (input.debounce.Lasting? && input.debounce.nanoseconds <= 0) {
        return false;
      }
      var key := Numbered(input.chip, input.line);
      if key in usedLines {
        if key in outputLines {
          ghost var n :| n in c.outputs && key == Numbered(c.outputs[n].chip, c.outputs[n].line);
          NumberedInjective(c.outputs[n].chip, c.outputs[n].line, input.chip, input.line);
        } else {
          ghost var n :| n in seen && key == Numbered(c.inputs[n].chip, c.inputs[n].line);
          NumberedInjective(c.inputs[n].chip, c.inputs[n].line, input.chip, input.line);
        }
        return false;
      }
      OneMoreInput(c, seen, outputLines, usedLines, name);
      usedLines := usedLines + {key};
      seen := seen + {name};
    }
    return true;
  }

  // ---------- lines ----------

  type Handle = nat

  /** Where a line that was ever obtained is now. */
  datatype Place = Output(name: string) | Input(name: string) | Closed(call: nat)

  /** The names in sorted order; no caller's contract depends on the order. */
  method SortedNames(names: set<string>) returns (sorted: seq<string>)
    ensures Elems(sorted) == names
  {
    var list: seq<string> := [];
    var left := names;
    while left != {}
      invariant Elems(list) + left == names
      decreases left
    {
      var name :| name in left;
      Append(list, name);
      list := list + [name];
      left := left - {name};
    }
    SortKeeps(list);
    sorted := Sort(list);
  }

  /** Outputs opened since are at their configured initial level. */
  ghost predicate Levelled(
    config: GpioConfig, before: map<string, Handle>, outputs: map<string, Handle>, levels: map<Handle, bool>)
  {
    forall n :: n in outputs && n !in before && n in config.outputs ==>
      outputs[n] in levels && levels[outputs[n]] == config.outputs[n].initial
  }

  lemma LevelledGrows(
    config: GpioConfig, before: map<string, Handle>, outputs: map<string, Handle>, levels: map<Handle, bool>,
    name: string, line: Handle)
    requires Levelled(config, before, outputs, levels) && name in config.outputs
    requires forall n :: n in outputs ==> outputs[n] != line
    ensures Levelled(config, before, outputs[name := line], levels[line := config.outputs[name].initial])
  {
  }

  /** None of the named inputs that are not open yet has a malformed debounce. */
  predicate Readable(config: GpioConfig, open: map<string, Handle>, names: set<string>) {
    forall n :: n in names && n in config.inputs && n !in open ==> !config.inputs[n].debounce.Malformed?
  }

  lemma Extending(names: seq<string>, i: nat)
    requires i < |names|
    ensures names[i] in Elems(names) && Elems(names[..i + 1]) == Elems(names[..i]) + {names[i]}
    ensures Elems(names[..|names|]) == Elems(names)
  {
    assert names[..i + 1] == names[..i] + [names[i]];
    Append(names[..i], names[i]);
    assert names[..|names|] == names;
  }

  class Manager {
    const config: GpioConfig
    var outputs: map<string, Handle>
    var inputs: map<string, Handle>

    // The kernel's side: handles handed out so far, the chip and line of each, close calls in
    // order, and the level of each line.
    var obtained: nat
    var lines: map<Handle, (string, int)>
    var closes: seq<Handle>
    var levels: map<Handle, bool>
    ghost var place: map<Handle, Place>

    // How many requests the kernel has refused, and how many close calls have reported an error.
    ghost var refused: nat
    ghost var closeErrors: nat

    ghost predicate Valid()
      reads this
    {
      Bookkeeping() && Wiring()
    }

    /** Each line ever obtained is in exactly one place: under one name in one map, or in one
        close call. */
    ghost predicate Bookkeeping()
      reads this
    {
      && (forall h: Handle :: h in place <==> h < obtained)
      && (forall n :: n in outputs ==> outputs[n] in place && place[outputs[n]] == Output(n))
      && (forall n :: n in inputs ==> inputs[n] in place && place[inputs[n]] == Input(n))
      && (forall i :: 0 <= i < |closes| ==> closes[i] in place && place[closes[i]] == Closed(i))
      && (forall h :: h in place ==>
            match place[h]
            case Output(n) => n in outputs && outputs[n] == h
            case Input(n) => n in inputs && inputs[n] == h
            case Closed(i) => i < |closes| && closes[i] == h)
    }

    /** Open lines are the configured ones. */
    ghost predicate Wiring()
      reads this
    {
      && outputs.Keys <= config.outputs.Keys && inputs.Keys <= config.inputs.Keys
      && (forall n :: n in outputs ==>
            outputs[n] in lines && lines[outputs[n]] == (config.outputs[n].chip, config.outputs[n].line))
      && (forall n :: n in inputs ==>
            inputs[n] in lines && lines[inputs[n]] == (config.inputs[n].chip, config.inputs[n].line))
    }

    constructor (config: GpioConfig)
      ensures Valid() && this.config == config && outputs == map[] && inputs == map[] && obtained == 0
    {
      this.config := config;
      outputs, inputs, obtained, lines, closes, levels, place := map[], map[], 0, map[], [], map[], map[];
      refused, closeErrors := 0, 0;
    }

    /** The kernel gives a fresh line or refuses. */
    method RequestLine(chip: string, offset: int) returns (line: Option<Handle>)
      modifies this`obtained, this`refused, this`lines
      ensures line == None ==> obtained == old(obtained) && lines == old(lines) && refused == old(refused) + 1
      ensures line.Some? ==> refused == old(refused)
      ensures line.Some? ==> line.value == old(obtained) && obtained == old(obtained) + 1
      ensures line.Some? ==> lines == old(lines)[line.value := (chip, offset)]
    {
      var granted: bool := *;
      if !granted {
        refused := refused + 1;
        return None;
      }
      line := Some(obtained);
      lines := lines[obtained := (chip, offset)];
      obtained := obtained + 1;
    }

    method CloseInput(name: string) returns (ok: bool)
      requires Valid() && name in inputs
      modifies this`inputs, this`closes, this`closeErrors, this`place
      ensures Valid() && inputs == old(inputs) - {name} && closes == old(closes) + [old(inputs)[name]]
      ensures closeErrors == old(closeErrors) + if ok then 0 else 1
    {
      ok := *;
      if !ok {
        closeErrors := closeErrors + 1;
      }
      place := place[inputs[name] := Closed(|closes|)];
      closes := closes + [inputs[name]];
      inputs := inputs - {name};
    }

    method CloseOutput(name: string) returns (ok: bool)
      requires Valid() && name in outputs
      modifies this`outputs, this`closes, this`closeErrors, this`place
      ensures Valid() && outputs == old(outputs) - {name} && closes == old(closes) + [old(outputs)[name]]
      ensures closeErrors == old(closeErrors) + if ok then 0 else 1
    {
      ok := *;
      if !ok {
        closeErrors := closeErrors + 1;
      }
      place := place[outputs[name] := Closed(|closes|)];
      closes := closes + [outputs[name]];
      outputs := outputs - {name};
    }

    method CloseInputsLocked() returns (ok: bool)
      requires Valid()
      modifies this`inputs, this`closes, this`closeErrors, this`place
      ensures Valid() && inputs == map[]
      ensures closeErrors >= old(closeErrors) && (ok <==> closeErrors == old(closeErrors))
    {
      ok := true;
      while inputs != map[]
        invariant Valid()
        invariant closeErrors >= old(closeErrors) && (ok <==> closeErrors == old(closeErrors))
        decreases inputs.Keys
      {
        var name :| name in inputs;
        var closed := CloseInput(name);
        ok := ok && closed;
      }
    }

    method CloseLocked() returns (ok: bool)
      requires Valid()
      modifies this`inputs, this`outputs, this`closes, this`closeErrors, this`place
      ensures Valid() && inputs == map[] && outputs == map[]
      ensures closeErrors >= old(closeErrors) && (ok <==> closeErrors == old(closeErrors))
    {
      ok := CloseInputsLocked();
      while outputs != map[]
        invariant Valid() && inputs == map[]
        invariant closeErrors >= old(closeErrors) && (ok <==> closeErrors == old(closeErrors))
        decreases outputs.Keys
      {
        var name :| name in outputs;
        var closed := CloseOutput(name);
        ok := ok && closed;
      }
    }

    /** Every line ever obtained has been given back; an error is reported exactly when some close
        call failed, and keeps no other line open. */
    method Close() returns (ok: bool)
      requires Valid()
      modifies this`inputs, this`outputs, this`closes, this`closeErrors, this`place
      ensures Valid() && inputs == map[] && outputs == map[]
      ensures forall h: Handle :: h < obtained ==> h in closes
      ensures closeErrors >= old(closeErrors) && (ok <==> closeErrors == old(closeErrors))
    {
      ok := CloseLocked();
      forall h: Handle | h < obtained ensures h in closes {
        assert h in place && place[h].Closed?;
      }
    }

    /** Outputs open before are still open on the same lines; the others are at their initial
        level. */
    ghost predicate Grown(before: map<string, Handle>)
      reads this
    {
      && (forall n :: n in before ==> n in outputs && outputs[n] == before[n])
      && Levelled(config, before, outputs, levels)
    }

    ghost predicate Retained(before: map<string, Handle>)
      reads this
    {
      forall n :: n in before ==> n in inputs && inputs[n] == before[n]
    }

    method ObtainOutput(name: string) returns (line: Option<Handle>)
      requires Valid() && name in config.outputs && name !in outputs
      modifies this`outputs, this`obtained, this`refused, this`lines, this`place
      ensures Valid()
      ensures line == None ==> outputs == old(outputs) && refused == old(refused) + 1
      ensures line.Some? ==> refused == old(refused)
      ensures line.Some? ==> outputs == old(outputs)[name := line.value]
      ensures line.Some? ==> forall n :: n in old(outputs) ==> old(outputs)[n] != line.value
    {
      var cfg := config.outputs[name];
      line := RequestLine(cfg.chip, cfg.line);
      if line.Some? {
        place := place[line.value := Output(name)];
        outputs := outputs[name := line.value];
      }
    }

    /** Opens one output at its initial level, unless it is open already. */
    method OpenOutput(name: string, ghost before: map<string, Handle>) returns (ok: bool)
      requires Valid() && name in config.outputs && Grown(before)
      modifies this`outputs, this`obtained, this`refused, this`lines, this`levels, this`place
      ensures Valid() && Grown(before)
      ensures outputs.Keys == if ok then old(outputs).Keys + {name} else old(outputs).Keys
      ensures refused >= old(refused) && (ok <==> refused == old(refused))
    {
      if name in outputs {
        return true;
      }
      var line := ObtainOutput(name);
      if line == None {
        return false;
      }
      LevelledGrows(config, before, old(outputs), levels, name, line.value);
      levels := levels[line.value := config.outputs[name].initial];
      return true;
    }

    method OpenInput(name: string) returns (ok: bool)
      requires Valid() && name in config.inputs
      modifies this`inputs, this`obtained, this`refused, this`lines, this`place
      ensures Valid()
      ensures !ok ==> inputs == old(inputs)
      ensures ok ==> name in inputs && inputs == old(inputs)[name := inputs[name]]
      ensures ok && name in old(inputs) ==> inputs == old(inputs)
      ensures refused >= old(refused)
      ensures ok <==> refused == old(refused) && (name in old(inputs) || !config.inputs[name].debounce.Malformed?)
    {
      if name in inputs {
        return true;
      }
      var cfg := config.inputs[name];
      if cfg.debounce.Malformed? {
        return false;
      }
      var line := RequestLine(cfg.chip, cfg.line);
      if line == None {
        return false;
      }
      place := place[line.value := Input(name)];
      inputs := inputs[name := line.value];
      return true;
    }

    /** Opens the named outputs until one is refused. */
    method ObtainOutputs(names: seq<string>) returns (ok: bool)
      requires Valid() && Elems(names) == config.outputs.Keys
      modifies this`outputs, this`obtained, this`refused, this`lines, this`levels, this`place
      ensures Valid() && Grown(old(outputs))
      ensures ok ==> outputs.Keys == config.outputs.Keys
      ensures refused >= old(refused) && (ok <==> refused == old(refused))
    {
      for i := 0 to |names|
        invariant Valid() && Grown(old(outputs)) && refused == old(refused)
        invariant Elems(names[..i]) <= outputs.Keys
      {
        Extending(names, i);
        ok := OpenOutput(names[i], old(outputs));
        if !ok {
          return;
        }
      }
      return true;
    }

    /** All configured outputs, freshly opened ones at their initial level, or nothing at all. */
    method OpenOutputs() returns (ok: bool)
      requires Valid()
      modifies this
      ensures Valid()
      ensures refused >= old(refused) && (ok <==> refused == old(refused))
      ensures ok ==> outputs.Keys == config.outputs.Keys && inputs == old(inputs) && Grown(old(outputs))
      ensures ok ==> forall n :: n in config.outputs && n !in old(outputs) ==>
                var cfg, line := config.outputs[n], outputs[n];
                line in lines && lines[line] == (cfg.chip, cfg.line) && line in levels && levels[line] == cfg.initial
      ensures !ok ==> outputs == map[] && inputs == map[]
    {
      var names := SortedNames(config.outputs.Keys);
      ok := ObtainOutputs(names);
      if !ok {
        var closed := CloseLocked();
      }
    }

    /** Opens the named inputs until one is refused. */
    method ObtainInputs(names: seq<string>) returns (ok: bool)
      requires Valid() && Elems(names) == config.inputs.Keys
      modifies this`inputs, this`obtained, this`refused, this`lines, this`place
      ensures Valid() && Retained(old(inputs))
      ensures ok ==> inputs.Keys == config.inputs.Keys
      ensures refused >= old(refused)
      ensures ok <==> refused == old(refused) && Readable(config, old(inputs), Elems(names))
    {
      for i := 0 to |names|
        invariant Valid() && Retained(old(inputs))
        invariant refused == old(refused) && Readable(config, old(inputs), Elems(names[..i]))
        invariant inputs.Keys == old(inputs).Keys + Elems(names[..i])
      {
        Extending(names, i);
        ok := OpenInput(names[i]);
        if !ok {
          return;
        }
      }
      return true;
    }

    /** All configured inputs, or none; outputs and their levels are never touched. */
    method OpenInputs() returns (ok: bool)
      requires Valid()
      modifies this`inputs, this`obtained, this`refused, this`lines, this`closes, this`closeErrors, this`place
      ensures Valid()
      ensures ok <==> && refused == old(refused)
                      && forall n :: n in config.inputs && n !in old(inputs) ==> !config.inputs[n].debounce.Malformed?
      ensures ok ==> inputs.Keys == config.inputs.Keys && Retained(old(inputs))
      ensures ok ==> forall n :: n in config.inputs ==>
                inputs[n] in lines && lines[inputs[n]] == (config.inputs[n].chip, config.inputs[n].line)
      ensures !ok ==> inputs == map[]
    {
      var names := SortedNames(config.inputs.Keys);
      ok := ObtainInputs(names);
      if !ok {
        var closed := CloseInputsLocked();
      }
    }

    /** Sets a line's value; a closed line refuses, and a driver error leaves it driven or not. */
    method SetValue(line: Handle, state: bool) returns (ok: bool, ghost driverError: bool)
      modifies this`levels
      ensures ok <==> line !in closes && !driverError
      ensures levels == old(levels) || (line !in closes && levels == old(levels)[line := state])
      ensures ok ==> levels == old(levels)[line := state]
    {
      if line in closes {
        return false, false;
      }
      ok := *;
      var driven: bool := *;
      if ok || driven {
        levels := levels[line := state];
      }
      driverError := !ok;
    }

    /** Only the named line changes level, and never once it is closed: the manager's lock is not
        held while the line is set, so another goroutine may close everything in between. Fails
        only for a line that is not open, or is closed meanwhile, or on a driver error. */
    method SetOutput(name: string, state: bool) returns (ok: bool, ghost closedMeanwhile: bool, ghost driverError: bool)
      requires Valid()
      modifies this`inputs, this`outputs, this`closes, this`closeErrors, this`place, this`levels
      ensures Valid()
      ensures ok <==> name in old(outputs) && !closedMeanwhile && !driverError
      ensures if closedMeanwhile then outputs == map[] && inputs == map[]
              else outputs == old(outputs) && inputs == old(inputs) && closes == old(closes)
      ensures ok ==> name in outputs && levels == old(levels)[outputs[name] := state]
      ensures levels == old(levels) || (name in outputs && levels == old(levels)[outputs[name] := state])
    {
      if name !in outputs {
        return false, false, false;
      }
      var line := outputs[name];
      var closing: bool := *;
      closedMeanwhile := closing;
      if closing {
        var closed := CloseLocked();
      }
      EveryLineIsInOnePlace(line);
      ok, driverError := SetValue(line, state);
    }

    /** Conservation: a line is open under one name, or closed by one call, and never both. */
    lemma EveryLineIsInOnePlace(h: Handle)
      requires Valid() && h < obtained
      ensures var open := (exists n :: n in outputs && outputs[n] == h) || (exists n :: n in inputs && inputs[n] == h);
              open <==> h !in closes
      ensures forall m, n :: m in outputs && n in outputs && outputs[m] == outputs[n] ==> m == n
      ensures forall m, n :: m in inputs && n in inputs && inputs[m] == inputs[n] ==> m == n
      ensures forall m, n :: m in outputs && n in inputs ==> outputs[m] != inputs[n]
      ensures forall i, j :: 0 <= i < j < |closes| ==> closes[i] != closes[j]
    {
      assert h in place;
      match place[h]
      case Output(n) => assert outputs[n] == h;
      case Input(n) => assert inputs[n] == h;
      case Closed(i) => assert closes[i] == h;
    }

    /** Under a validated configuration no two open lines share a chip and an offset. */
    lemma OpenLinesAreExclusive(a: Handle, b: Handle)
      requires Valid() && ValidGpio(config) && a != b
      requires a < obtained && b < obtained && a !in closes && b !in closes
      ensures a in lines && b in lines && lines[a] != lines[b]
    {
      assert a in place && b in place;
      assert !place[a].Closed? && !place[b].Closed?;
    }
  }
}
