/** Loading a method's configuration: method defaults, then the user's file, then programmatic overrides, and
    the method's name filled in. */
module ConfigLoading {
  import opened Wrappers
  import opened ConfigMerge
  import opened ConfigObjects

  datatype LoadError = NothingGiven | FileNotFound

  // ------------------------------------------------------------------ the three layers

  // What a layer that is not there contributes.
  function Layer(o: Option<Config>): Config {
    match o
    case None => map[]
    case Some(c) => c
  }

  // A file given by its path is Some(None) when it does not exist.
  function Lower(defaults: Option<Config>, file: Option<Option<Config>>, name: Option<string>): Config
    requires file.Some? ==> file.value.Some?
  {
    var d := if name.Some? then Layer(defaults) else map[];
    if file.Some? then Merge(d, file.value.value) else d
  }

  function WithName(c: Config, name: Option<string>): (r: Config)
    ensures name == None || name == Some("") ==> r == c
  {
    if name == None || name == Some("") then c
    else if "method" !in c then c["method" := Dict(map["name" := Leaf(Text(name.value))])]
    else if c["method"].Dict? then c["method" := Dict(WithDefault(c["method"].entries, "name", Text(name.value)))]
    else c
  }

  function Loaded(defaults: Option<Config>, file: Option<Option<Config>>, name: Option<string>,
                  overrides: Option<Config>)
    : Result<Config, LoadError>
  {
    if file.None? && name.None? then Err(NothingGiven)
    else if file == Some(None) then Err(FileNotFound)
    else Ok(WithName(Merge(Lower(defaults, file, name), Layer(overrides)), name))
  }

  // ------------------------------------------------------------------ priorities

  predicate Says(c: Config, p: Path, v: Scalar)
    requires p != []
  {
    At(c, p) == Some(Leaf(v))
  }

  // Which calls fail.
  lemma LoadFailsExactlyWhen(defaults: Option<Config>, file: Option<Option<Config>>, name: Option<string>,
                             overrides: Option<Config>)
    ensures var r := Loaded(defaults, file, name, overrides);
            && (r == Err(NothingGiven) <==> file == None && name == None)
            && (r == Err(FileNotFound) <==> file == Some(None))
            && (r.Ok? <==> (name.Some? && file == None) || (file.Some? && file.value.Some?))
  {
  }

  // A layer has something to say at a path.
  predicate Speaks(layer: Option<Config>, p: Path)
    requires p != []
  {
    layer.Some? && !Open(layer.value, p)
  }

  // Outside the method section every leaf comes from the highest layer that has anything to say at its path:
  // the overrides, then the user's file, then, if a method is named, its defaults.
  lemma {:induction false} HighestLayerDecides(
    defaults: Option<Config>, file: Option<Option<Config>>, name: Option<string>, overrides: Option<Config>, p: Path,
    v: Scalar)
    requires p != [] && p[0] != "method" && Loaded(defaults, file, name, overrides).Ok?
    ensures var user := if file.Some? then file.value else None;
            Says(Loaded(defaults, file, name, overrides).value, p, v) <==>
            if Speaks(overrides, p) then Says(overrides.value, p, v)
            else if Speaks(user, p) then Says(user.value, p, v)
            else name.Some? && Speaks(defaults, p) && Says(defaults.value, p, v)
  {
    var d := if name.Some? then Layer(defaults) else map[];
    var m := Lower(defaults, file, name);
    var c := Merge(m, Layer(overrides));
    if file.Some? {
      LookupMerge(d, file.value.value, p);
    }
    LookupMerge(m, Layer(overrides), p);
    if name.Some? && defaults.Some? && Open(defaults.value, p) {
      OpenIsMissing(defaults.value, p);
    }
    assert At(WithName(c, name), p) == At(c, p);
  }

  // A non-empty method name is filled in unless the layers already name a method, or hold something other than
  // a dictionary in its place; nothing else changes.
  lemma NameFilledIn(defaults: Option<Config>, file: Option<Option<Config>>, name: string, overrides: Option<Config>)
    requires name != "" && file != Some(None)
    ensures var c := Merge(Lower(defaults, file, Some(name)), Layer(overrides));
            var r := Loaded(defaults, file, Some(name), overrides);
            && r.Ok?
            && At(r.value, ["method", "name"]) ==
               (if Open(c, ["method", "name"]) then Some(Leaf(Text(name))) else At(c, ["method", "name"]))
            && forall p: Path :: p != [] && p[0] != "method" ==> At(r.value, p) == At(c, p)
  {
    var c := Merge(Lower(defaults, file, Some(name)), Layer(overrides));
    var r := WithName(c, Some(name));
    assert ["method", "name"][1..] == ["name"];
  }

  // ------------------------------------------------------------------ what happens to the overrides

  // The overrides' own method section ends up in the loaded config, not a copy of it: the overrides hold one
  // and the lower layers do not.
  predicate SectionShared(lower: Config, overrides: Config) {
    "method" in overrides && overrides["method"].Dict? && !BothDicts(lower, overrides, "method")
  }

  function OverridesAfter(lower: Config, overrides: Config, name: Option<string>): Config {
    if SectionShared(lower, overrides) then WithName(overrides, name) else overrides
  }

  // The caller's overrides survive a call exactly when no name is filled in, the name is already there, or the
  // section that gets it is a merged copy.
  lemma OverridesKeptExactlyWhen(lower: Config, overrides: Config, name: Option<string>)
    ensures OverridesAfter(lower, overrides, name) == overrides <==>
            name == None || name == Some("") || !SectionShared(lower, overrides)
            || "name" in overrides["method"].entries
  {
    if SectionShared(lower, overrides) && name.Some? && name.value != "" && "name" !in overrides["method"].entries {
      assert "name" in OverridesAfter(lower, overrides, name)["method"].entries;
    }
  }

  // Overrides that set a learning rate come back with the name of the method that was loaded.
  lemma OverridesTouched()
    ensures var overrides := map["method" := Dict(map["lr" := Leaf(Literal(1))])];
            OverridesAfter(map[], overrides, Some("gkd")) ==
            map["method" := Dict(map["lr" := Leaf(Literal(1)), "name" := Leaf(Text("gkd"))])]
  {
    var section: Config := map["lr" := Leaf(Literal(1))];
    assert "name" !in section;
    assert WithDefault(section, "name", Text("gkd")) == map["lr" := Leaf(Literal(1)), "name" := Leaf(Text("gkd"))];
  }

  // When they do not survive, the same overrides name the first method whenever they are used again, also to load
  // another method's configuration.
  lemma {:induction false} FirstNameSticks(
    defaults: Option<Config>, file: Option<Option<Config>>, first: string, second: string, overrides: Config,
    defaults2: Option<Config>, file2: Option<Option<Config>>)
    requires first != "" && file != Some(None) && file2 != Some(None)
    requires OverridesAfter(Lower(defaults, file, Some(first)), overrides, Some(first)) != overrides
    ensures var after := OverridesAfter(Lower(defaults, file, Some(first)), overrides, Some(first));
            var r := Loaded(defaults2, file2, Some(second), Some(after));
            r.Ok? && Says(r.value, ["method", "name"], Text(first))
  {
    var lower := Lower(defaults, file, Some(first));
    OverridesKeptExactlyWhen(lower, overrides, Some(first));
    var after := OverridesAfter(lower, overrides, Some(first));
    var p := ["method", "name"];
    assert p[1..] == ["name"];
    assert Says(after, p, Text(first));
    var lower2 := Lower(defaults2, file2, Some(second));
    LookupMerge(lower2, after, p);
    assert !Open(after, p);
    assert Says(Merge(lower2, after), p, Text(first));
  }

  // ------------------------------------------------------------------ on objects

  ghost function Shows(o: Option<DictObject>): Option<Config>
    reads if o.Some? then {o.value} else {}
  {
    match o
    case None => None
    case Some(d) => Some(d.Contents)
  }

  ghost predicate ValidLayer(o: Option<DictObject>)
    reads if o.Some? then {o.value} + o.value.Repr else {}
  {
    o.Some? ==> o.value.Valid()
  }

  ghost function Objects(o: Option<DictObject>): set<DictObject>
    reads if o.Some? then {o.value} else {}
  {
    if o.Some? then o.value.Repr else {}
  }

  // The dictionary a config holds under a key, if it holds one.
  function Below(config: DictObject, key: string): set<DictObject>
    reads config
  {
    if key in config.entries && config.entries[key].Ref? then {config.entries[key].dict} else {}
  }

  // Fills the name in, in place: in the nested dictionary when there is one.
  method FillName(config: DictObject, name: string)
    requires config.Valid() && name != ""
    modifies config, Below(config, "method")
    ensures config.Valid() && config.Contents == WithName(old(config.Contents), Some(name))
    ensures "method" in old(config.entries) ==> config.entries == old(config.entries)
    ensures fresh(config.Repr - old(config.Repr))
    ensures forall m <- old(Below(config, "method")) ::
              m.Valid() && m.Repr == old(m.Repr) && m.Contents == WithDefault(old(m.Contents), "name", Text(name))
  {
    if "method" !in config.entries {
      var named := new DictObject();
      named.Put("name", Plain(Text(name)));
      config.Outside(Ref(named));
      config.Put("method", Ref(named));
    } else {
      config.Shape("method");
      match config.entries["method"] {
        case Plain(_) =>
        case Ref(m) => config.SetDefaultBelow("method", "name", Text(name));
      }
    }
  }

  // The config's method section is the overrides' own, or none of their objects.
  ghost predicate SectionFrom(config: DictObject, overrides: DictObject, shared: bool)
    reads config, overrides, overrides.Repr
  {
    if shared
    then "method" in config.entries && config.entries["method"].Ref? && "method" in overrides.entries
         && overrides.entries["method"] == config.entries["method"]
    else Below(config, "method") !! overrides.Repr
  }

  method ApplyOverrides(lower: DictObject, overrides: DictObject) returns (config: DictObject)
    requires lower.Valid() && overrides.Valid() && lower.Repr !! overrides.Repr
    ensures config.Valid() && config.Contents == Merge(lower.Contents, overrides.Contents)
    ensures config !in overrides.Repr && overrides !in config.Repr && fresh(config.Repr - lower.Repr - overrides.Repr)
    ensures config == lower || fresh(config)
    ensures SectionFrom(config, overrides, SectionShared(lower.Contents, overrides.Contents))
  {
    hide DictObject.Valid, MergedAt, Merge, SectionShared, SectionFrom;
    ContentsKeys(overrides);
    OwnSection(lower, overrides);
    if |overrides.entries| > 0 {
      config := DeepMerge(lower, overrides);
      SectionOfMerged(config, lower, overrides);
    } else {
      assert overrides.Contents == map[];
      MergeIdentity(lower.Contents);
      config := lower;
    }
  }

  lemma OwnSection(lower: DictObject, overrides: DictObject)
    requires lower.Valid() && overrides.Valid() && lower.Repr !! overrides.Repr
    ensures lower !in overrides.Repr && overrides !in lower.Repr
    ensures overrides.Contents == map[] ==>
              SectionFrom(lower, overrides, SectionShared(lower.Contents, overrides.Contents))
  {
    hide DictObject.Held, DictObject.Apart;
    lower.Children();
  }

  lemma SectionOfMerged(config: DictObject, lower: DictObject, overrides: DictObject)
    requires lower.Valid() && overrides.Valid() && lower.Repr !! overrides.Repr && config.Valid()
    requires config.entries.Keys == lower.entries.Keys + overrides.entries.Keys
    requires forall k <- config.entries.Keys :: MergedAt(config, lower, overrides, k, false)
    ensures SectionFrom(config, overrides, SectionShared(lower.Contents, overrides.Contents))
  {
    hide DictObject.Held, DictObject.Apart, DictObject.Valid;
    lower.Children();
    overrides.Children();
    if "method" in overrides.entries { overrides.Shape("method"); }
    if "method" in lower.entries { lower.Shape("method"); }
    ContentsKeys(lower);
    ContentsKeys(overrides);
    if "method" in config.entries {
      assert MergedAt(config, lower, overrides, "method", false);
    }
  }

  // The overrides once the name has been filled in, all but recorded.
  ghost predicate Unrecorded(overrides: DictObject, m: DictObject)
    reads overrides, overrides.Repr, m, m.Repr
  {
    && "method" in overrides.entries && overrides.entries["method"] == Ref(m)
    && overrides.ValidBut("method") && m.Valid() && overrides !in m.Repr && m.Repr <= overrides.Repr
    && forall k <- overrides.entries.Keys :: k != "method" ==> overrides.Apart(k, "method")
  }

  method FillBeside(config: DictObject, overrides: DictObject, name: string, ghost shared: bool)
    requires config.Valid() && overrides.Valid() && name != ""
    requires config !in overrides.Repr && overrides !in config.Repr && SectionFrom(config, overrides, shared)
    modifies config, Below(config, "method")
    ensures config.Valid() && config.Contents == WithName(old(config.Contents), Some(name)) && overrides !in config.Repr
    ensures overrides.entries == old(overrides.entries) && overrides.Contents == old(overrides.Contents)
    ensures !shared ==> overrides.Valid()
    ensures shared ==>
              var m := overrides.entries["method"].dict;
              && Unrecorded(overrides, m)
              && old("method" in overrides.Contents && overrides.Contents["method"].Dict?)
              && m.Contents == WithDefault(old(overrides.Contents["method"].entries), "name", Text(name))
  {
    if shared {
      overrides.Nested("method");
    }
    FillName(config, name);
    if shared {
      forall k | k in overrides.entries.Keys && k != "method"
        ensures overrides.Held(k) && Footprint(overrides.entries[k]) == old(Footprint(overrides.entries[k]))
      {
        overrides.HeldKept(k);
      }
      forall k, l | k in overrides.entries.Keys && l in overrides.entries.Keys && k != l && k != "method"
        ensures overrides.Apart(k, l)
      {
        assert old(overrides.Apart(k, l));
      }
    }
  }

  // Filling the name in, as seen from the overrides that were merged in.
  method FillNameOver(config: DictObject, overrides: DictObject, name: string, ghost shared: bool)
    requires config.Valid() && overrides.Valid() && name != ""
    requires config !in overrides.Repr && overrides !in config.Repr && SectionFrom(config, overrides, shared)
    modifies config, overrides, Below(config, "method")
    ensures config.Valid() && config.Contents == WithName(old(config.Contents), Some(name))
    ensures overrides.Valid()
    ensures overrides.Contents == if shared then WithName(old(overrides.Contents),
        Some(name)) else old(overrides.Contents)
  {
    FillBeside(config, overrides, name, shared);
    if shared {
      RecordSection(overrides, overrides.entries["method"].dict);
    }
  }

  ghost method RecordSection(overrides: DictObject, m: DictObject)
    requires Unrecorded(overrides, m)
    modifies overrides
    ensures overrides.Valid() && overrides.Contents == old(overrides.Contents)["method" := Dict(m.Contents)]
  {
    overrides.Record("method");
  }

  method LoadLower(defaults: Option<DictObject>, file: Option<Option<DictObject>>, name: Option<string>)
    returns (config: DictObject)
    requires file.Some? ==> file.value.Some?
    requires ValidLayer(defaults) && (file.Some? ==> ValidLayer(file.value) && Objects(file.value) !! Objects(defaults))
    ensures config.Valid()
    ensures config.Contents ==
            Lower(Shows(defaults), if file.Some? then Some(Shows(file.value)) else None, name)
    ensures fresh(config.Repr - Objects(defaults) - if file.Some? then Objects(file.value) else {})
  {
    config := new DictObject();
    if name.Some? && defaults.Some? {
      config := defaults.value;
    }
    if file.Some? {
      config := DeepMerge(config, file.value.value);
    }
  }

  // The name is also filled into the caller's overrides when they hold a method section and no layer below does;
  // otherwise the overrides are left as they were.
  method LoadMethodConfig(file: Option<Option<DictObject>>, name: Option<string>, defaults: Option<DictObject>,
                          overrides: Option<DictObject>)
    returns (r: Result<DictObject, LoadError>)
    requires ValidLayer(defaults) && ValidLayer(overrides) && (file.Some? ==> ValidLayer(file.value))
    requires Objects(defaults) !! Objects(overrides)
    requires file.Some? ==> Objects(file.value) !! Objects(defaults) && Objects(file.value) !! Objects(overrides)
    modifies Objects(defaults), Objects(overrides), if file.Some? then Objects(file.value) else {}
    ensures var d, f, o := old(Shows(defaults)), if file.Some? then Some(old(Shows(file.value))) else None,
        old(Shows(overrides));
            var loaded := Loaded(d, f, name, o);
            && r.Ok? == loaded.Ok?
            && (r.Err? ==> r.error == loaded.error)
            && (r.Ok? ==> r.value.Valid() && r.value.Contents == loaded.value)
            && (overrides.Some? && r.Ok? ==>
                  overrides.value.Valid()
                  && overrides.value.Contents == OverridesAfter(Lower(d, f, name), o.value, name))
  {
    hide DictObject.Valid, SectionShared, SectionFrom, WithName, Merge;
    if file.None? && name.None? {
      return Err(NothingGiven);
    }
    if file == Some(None) {
      return Err(FileNotFound);
    }
    var config := LoadLower(defaults, file, name);
    MergeIdentity(config.Contents);
    config.Children();
    if overrides.Some? {
      ghost var shared := SectionShared(config.Contents, overrides.value.Contents);
      config := ApplyOverrides(config, overrides.value);
      overrides.value.Children();
      config.Children();
      if name.Some? && name.value != "" {
        FillNameOver(config, overrides.value, name.value, shared);
      }
    } else if name.Some? && name.value != "" {
      FillName(config, name.value);
    }
    r := Ok(config);
  }
}
