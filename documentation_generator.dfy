/** The generator window's model: its settings, the edits behind the buttons of
    the kind table, loading the saved settings, and one generation run (parse
    the enabled input folders, run the enabled plugins, render). The editor
    widgets, JSON and plugin discovery are not modelled. */
module Generator {
  import opened Text
  import opened Xml
  import opened Output
  import opened DocumentModel
  import opened CSharpSyntax
  import opened DocumentationParser
  import opened KindPlugin
  import opened MarkdownPages

  /** A plugin's saved entry: its type name, whether it runs, its settings. */
  datatype PluginData = PluginData(name: string, enabled: bool, settings: string)

  /** The settings file as deserialised. A list the file does not hold is None. */
  datatype SavedConfig = SavedConfig(
    inputFolders: Option<seq<string>>,
    enableInputFolders: Option<seq<bool>>,
    outputFolder: string,
    writeTitle: bool,
    generateTableOfContents: bool,
    writeAttributes: bool,
    inlineClasses: bool,
    kindOrder: Option<seq<string>>,
    kindTemplates: Option<seq<string>>,
    kindTitles: Option<seq<string>>,
    pluginConfigs: Option<seq<PluginData>>)

  /** One row of the kind table: a kind, its name template and its group title. */
  datatype KindRow = KindRow(kind: string, template: string, title: string)

  /** The kind table read row by row across the three parallel lists. */
  function Rows(kinds: seq<string>, templates: seq<string>, titles: seq<string>): seq<KindRow>
    requires |templates| == |kinds| && |titles| == |kinds|
  {
    seq(|kinds|, k requires 0 <= k < |kinds| => KindRow(kinds[k], templates[k], titles[k]))
  }

  /** The initial kind table. */
  const DefaultKindOrder: seq<string> := ["enum", "method", "property", "field"]
  const DefaultKindTemplates: seq<string> := ["enum {0}", "method {0}", "property {0}", "field {0}"]
  const DefaultKindTitles: seq<string> := ["Enums", "Methods", "Properties", "Field"]

  /** The tuple swap `(s[i], s[j]) = (s[j], s[i])`. */
  function Swapped<T>(s: seq<T>, i: nat, j: nat): (r: seq<T>)
    requires i < |s| && j < |s|
    ensures |r| == |s| && multiset(r) == multiset(s)
    ensures r[i] == s[j] && r[j] == s[i]
    ensures forall k :: 0 <= k < |s| && k != i && k != j ==> r[k] == s[k]
  {
    s[i := s[j]][j := s[i]]
  }

  /** `RemoveAt(i)`. */
  function Removed<T>(s: seq<T>, i: nat): (r: seq<T>)
    requires i < |s|
    ensures |r| == |s| - 1
    ensures forall k :: 0 <= k < |r| ==> r[k] == if k < i then s[k] else s[k + 1]
  {
    s[..i] + s[i + 1..]
  }

  /** Swapping the same two rows twice restores the list. */
  lemma SwapTwice<T>(s: seq<T>, i: nat, j: nat)
    requires i < |s| && j < |s|
    ensures Swapped(Swapped(s, i, j), i, j) == s
  {
    var r := Swapped(Swapped(s, i, j), i, j);
    assert forall k :: 0 <= k < |s| ==> r[k] == s[k];
  }

  /** A swap of the same two positions in each list swaps those two rows. */
  lemma SwappedRows(kinds: seq<string>, templates: seq<string>, titles: seq<string>, i: nat, j: nat)
    requires |templates| == |kinds| && |titles| == |kinds| && i < |kinds| && j < |kinds|
    ensures Rows(Swapped(kinds, i, j), Swapped(templates, i, j), Swapped(titles, i, j)) ==
      Swapped(Rows(kinds, templates, titles), i, j)
  {
    var a := Rows(Swapped(kinds, i, j), Swapped(templates, i, j), Swapped(titles, i, j));
    var b := Swapped(Rows(kinds, templates, titles), i, j);
    forall k | 0 <= k < |kinds| ensures a[k] == b[k] {
    }
  }

  /** RemoveAt of the same position in each list removes that row. */
  lemma RemovedRows(kinds: seq<string>, templates: seq<string>, titles: seq<string>, i: nat)
    requires |templates| == |kinds| && |titles| == |kinds| && i < |kinds|
    ensures Rows(Removed(kinds, i), Removed(templates, i), Removed(titles, i)) == Removed(Rows(kinds, templates, titles), i)
  {
    var a := Rows(Removed(kinds, i), Removed(templates, i), Removed(titles, i));
    var b := Removed(Rows(kinds, templates, titles), i);
    forall k | 0 <= k < |a| ensures a[k] == b[k] {
    }
  }

  /** The enable flags LoadConfig rebuilds: one `true` per input folder. */
  method AllEnabled(n: nat) returns (flags: seq<bool>)
    ensures |flags| == n && forall k :: 0 <= k < n ==> flags[k]
  {
    flags := [];
    for i := 0 to n
      invariant |flags| == i && forall k :: 0 <= k < i ==> flags[k]
    {
      flags := flags + [true];
    }
  }

  /** The kind lists LoadConfig rebuilds: `kind + suffix` for each kind, with
      " {0}" for the name templates and "s" for the group titles. */
  method SuffixedFor(kinds: seq<string>, suffix: string) returns (r: seq<string>)
    ensures |r| == |kinds| && forall k :: 0 <= k < |kinds| ==> r[k] == kinds[k] + suffix
  {
    r := [];
    for i := 0 to |kinds|
      invariant |r| == i && forall k :: 0 <= k < i ==> r[k] == kinds[k] + suffix
    {
      r := r + [kinds[i] + suffix];
    }
  }

  /** `plugins.Where((p, i) => pluginConfigs[i].enabled)`: the plugins whose
      entry at the same position is enabled, in order. */
  function EnabledPlugins(plugins: seq<KindAttributePlugin>, configs: seq<PluginData>): (r: seq<KindAttributePlugin>)
    requires |plugins| <= |configs|
    ensures |r| <= |plugins|
    ensures forall k :: 0 <= k < |r| ==> r[k] in plugins
  {
    if plugins == [] then []
    else
      var n := |plugins| - 1;
      EnabledPlugins(plugins[..n], configs) + (if configs[n].enabled then [plugins[n]] else [])
  }

  /** With every entry enabled all plugins run, in their order; with none
      enabled no plugin runs. */
  lemma {:induction false} EnabledPluginsExtremes(plugins: seq<KindAttributePlugin>, configs: seq<PluginData>)
    requires |plugins| <= |configs|
    ensures (forall i :: 0 <= i < |plugins| ==> configs[i].enabled) ==> EnabledPlugins(plugins, configs) == plugins
    ensures (forall i :: 0 <= i < |plugins| ==> !configs[i].enabled) ==> EnabledPlugins(plugins, configs) == []
  {
    if plugins != [] {
      var n := |plugins| - 1;
      EnabledPluginsExtremes(plugins[..n], configs);
      assert plugins[..n] + [plugins[n]] == plugins;
    }
  }

  /** The replacement lists of the given plugins, in order. */
  ghost function RulesOf(plugins: seq<KindAttributePlugin>): (rules: seq<seq<KindAttributeReplacement>>)
    reads set p | p in plugins
    ensures |rules| == |plugins|
  {
    if plugins == [] then []
    else RulesOf(plugins[..|plugins| - 1]) + [plugins[|plugins| - 1].replacements]
  }

  /** A heap of the same shape keeps a project's top-level items. */
  lemma ShapeKeepsRoots(a: seq<DocumentationItem>, b: seq<DocumentationItem>, namespaces: seq<NamespaceInfo>)
    requires SameShape(a, b) && ProjectRoots(a, namespaces)
    ensures ProjectRoots(b, namespaces)
  {
    forall k, j | 0 <= k < |namespaces| && 0 <= j < |namespaces[k].items|
      ensures b[namespaces[k].items[j]].parent.None?
    {
      var r := namespaces[k].items[j];
      assert a[r].parent == b[r].parent;
    }
  }

  /** The heap after each plugin's Generate in turn, each over the whole project. */
  ghost function PluginsApplied(items: seq<DocumentationItem>, namespaces: seq<NamespaceInfo>, rules: seq<seq<KindAttributeReplacement>>): (r: seq<DocumentationItem>)
    requires Forest(items) && ProjectRoots(items, namespaces)
    ensures Forest(r) && ProjectRoots(r, namespaces) && SameShape(items, r)
  {
    if rules == [] then items
    else
      var before := PluginsApplied(items, namespaces, rules[..|rules| - 1]);
      var last := rules[|rules| - 1];
      RewrittenOnlyKinds(before, ProjectReach(before, namespaces), last);
      var r := Rewritten(before, ProjectReach(before, namespaces), last);
      ShapeKeepsRoots(before, r, namespaces);
      r
  }

  /** The plugins only ever rewrite kinds: after any of them, every item keeps
      its name, comment, attributes, members, parent and base types. */
  lemma {:induction false} PluginsOnlyKinds(items: seq<DocumentationItem>, namespaces: seq<NamespaceInfo>, rules: seq<seq<KindAttributeReplacement>>)
    requires Forest(items) && ProjectRoots(items, namespaces)
    ensures var r := PluginsApplied(items, namespaces, rules);
      |r| == |items| && forall j :: 0 <= j < |items| ==> r[j] == items[j].(kind := r[j].kind)
  {
    if rules != [] {
      var before := PluginsApplied(items, namespaces, rules[..|rules| - 1]);
      PluginsOnlyKinds(items, namespaces, rules[..|rules| - 1]);
      RewrittenOnlyKinds(before, ProjectReach(before, namespaces), rules[|rules| - 1]);
    }
  }

  /** With no plugin enabled, the parsed heap is rendered as it is. */
  lemma NoPluginsNoChange(items: seq<DocumentationItem>, namespaces: seq<NamespaceInfo>)
    requires Forest(items) && ProjectRoots(items, namespaces)
    ensures PluginsApplied(items, namespaces, []) == items
  {
  }

  /** What the parser makes of the enabled folders: each folder's namespaces,
      appended in folder order; same-named namespaces of different folders
      stay apart. */
  function EnabledTrees(folders: seq<string>, enabled: seq<bool>, sources: string -> seq<CompilationUnit>, packageOf: string -> string): seq<NamespaceTrees>
    requires |enabled| == |folders|
  {
    if folders == [] then []
    else
      var n := |folders| - 1;
      EnabledTrees(folders[..n], enabled[..n], sources, packageOf)
      + (if enabled[n] then ProjectSpec(sources(folders[n]), packageOf(folders[n])) else [])
  }

  /** A disabled folder contributes nothing, wherever it is in the list. */
  lemma {:induction false} DisabledFolderIgnored(folders: seq<string>, enabled: seq<bool>, i: nat, sources: string -> seq<CompilationUnit>,
                                                 packageOf: string -> string)
    requires |enabled| == |folders| && i < |folders| && !enabled[i]
    ensures EnabledTrees(folders, enabled, sources, packageOf) ==
      EnabledTrees(folders[..i] + folders[i + 1..], enabled[..i] + enabled[i + 1..], sources, packageOf)
    decreases |folders|
  {
    var n := |folders| - 1;
    var fs := folders[..i] + folders[i + 1..];
    var es := enabled[..i] + enabled[i + 1..];
    if i == n {
      assert fs == folders[..n] && es == enabled[..n];
    } else {
      DisabledFolderIgnored(folders[..n], enabled[..n], i, sources, packageOf);
      assert fs[..|fs| - 1] == folders[..n][..i] + folders[..n][i + 1..];
      assert es[..|es| - 1] == enabled[..n][..i] + enabled[..n][i + 1..];
      assert fs[|fs| - 1] == folders[n] && es[|es| - 1] == enabled[n];
    }
  }

  /** The trees of an appended list of namespaces. */
  lemma ProjectTreesAppend(items: seq<DocumentationItem>, a: seq<NamespaceInfo>, b: seq<NamespaceInfo>)
    requires Closed(items) && NamespacesAllocated(items, a) && NamespacesAllocated(items, b)
    ensures NamespacesAllocated(items, a + b)
    ensures ProjectTrees(items, a + b) == ProjectTrees(items, a) + ProjectTrees(items, b)
  {
    assert forall k :: 0 <= k < |a + b| ==> (a + b)[k] == if k < |a| then a[k] else b[k - |a|];
    var l := ProjectTrees(items, a + b);
    var r := ProjectTrees(items, a) + ProjectTrees(items, b);
    forall k | 0 <= k < |a + b| ensures l[k] == r[k] {
    }
  }

  /** The trees of older namespaces are unchanged when the heap only grew. */
  lemma ProjectTreesGrow(a: seq<DocumentationItem>, b: seq<DocumentationItem>, namespaces: seq<NamespaceInfo>)
    requires Closed(a) && Closed(b) && |a| <= |b| && NamespacesAllocated(a, namespaces)
    requires forall j :: 0 <= j < |a| ==> b[j] == a[j]
    ensures NamespacesAllocated(b, namespaces)
    ensures ProjectTrees(b, namespaces) == ProjectTrees(a, namespaces)
  {
    var l := ProjectTrees(b, namespaces);
    var r := ProjectTrees(a, namespaces);
    forall k | 0 <= k < |namespaces| ensures l[k] == r[k] {
      TreesFrame(a, b, namespaces[k].items, -1);
    }
  }

  /** Namespaces parsed into a grown heap, whose items are all new, can be
      appended to the older ones and the project's top-level items stay
      parentless and listed once. */
  lemma RootsAppend(a: seq<DocumentationItem>, b: seq<DocumentationItem>, older: seq<NamespaceInfo>, newer: seq<NamespaceInfo>)
    requires |a| <= |b| && forall j :: 0 <= j < |a| ==> b[j] == a[j]
    requires ProjectRoots(a, older) && ProjectRoots(b, newer) && RootsFrom(newer, |a|)
    ensures ProjectRoots(b, older + newer)
  {
    var ns := older + newer;
    assert forall k :: 0 <= k < |ns| ==> ns[k] == if k < |older| then older[k] else newer[k - |older|];
    forall k, j | 0 <= k < |ns| && 0 <= j < |ns[k].items| ensures ns[k].items[j] < |b| && b[ns[k].items[j]].parent.None? {
      if k < |older| {
        assert ns[k].items[j] < |a|;
      }
    }
  }

  /** The input folders of a saved config (none when it holds no list), and
      its enable flags when there is one per folder, else all true. */
  ghost predicate FoldersLoaded(c: SavedConfig, folders: seq<string>, flags: seq<bool>) {
    folders == (if c.inputFolders.Some? then c.inputFolders.value else []) &&
    |flags| == |folders| &&
    if c.enableInputFolders.Some? && |c.enableInputFolders.value| == |folders| then flags == c.enableInputFolders.value
    else forall k :: 0 <= k < |folders| ==> flags[k]
  }

  /** The saved kind order when it is a non-empty list, else the current one;
      the saved templates and titles when they line up with it, else the
      defaults derived from each kind. */
  ghost predicate KindsLoaded(c: SavedConfig, current: seq<string>, kinds: seq<string>, templates: seq<string>, titles: seq<string>) {
    kinds == (if c.kindOrder.Some? && |c.kindOrder.value| > 0 then c.kindOrder.value else current) &&
    |templates| == |kinds| && |titles| == |kinds| &&
    (if c.kindTemplates.Some? && |c.kindTemplates.value| == |kinds| then templates == c.kindTemplates.value
     else forall k :: 0 <= k < |kinds| ==> templates[k] == kinds[k] + " {0}") &&
    (if c.kindTitles.Some? && |c.kindTitles.value| == |kinds| then titles == c.kindTitles.value
     else forall k :: 0 <= k < |kinds| ==> titles[k] == kinds[k] + "s")
  }

  /** The folder half of LoadConfig. */
  method LoadFolders(c: SavedConfig) returns (folders: seq<string>, flags: seq<bool>)
    ensures FoldersLoaded(c, folders, flags)
  {
    folders := if c.inputFolders.Some? then c.inputFolders.value else [];
    if c.enableInputFolders.Some? && |c.enableInputFolders.value| == |folders| {
      flags := c.enableInputFolders.value;
    } else {
      flags := AllEnabled(|folders|);
    }
  }

  /** The kind-table half of LoadConfig. */
  method LoadKinds(c: SavedConfig, current: seq<string>) returns (kinds: seq<string>, templates: seq<string>, titles: seq<string>)
    ensures KindsLoaded(c, current, kinds, templates, titles)
  {
    kinds := if c.kindOrder.Some? && |c.kindOrder.value| > 0 then c.kindOrder.value else current;
    if c.kindTemplates.Some? && |c.kindTemplates.value| == |kinds| {
      templates := c.kindTemplates.value;
    } else {
      templates := SuffixedFor(kinds, " {0}");
    }
    if c.kindTitles.Some? && |c.kindTitles.value| == |kinds| {
      titles := c.kindTitles.value;
    } else {
      titles := SuffixedFor(kinds, "s");
    }
  }

  /** The generator window's state. */
  class DocumentationGenerator {
    var inputFolders: seq<string>
    var enableInputFolders: seq<bool>
    var outputFolder: string
    var writeTitle: bool
    var generateTableOfContents: bool
    var writeAttributes: bool
    var inlineClasses: bool
    var kindOrder: seq<string>
    var kindTemplates: seq<string>
    var kindTitles: seq<string>
    var pluginConfigs: seq<PluginData>
    /** The discovered plugins; KindAttributePlugin is the only one. */
    const plugins: seq<KindAttributePlugin>

    /** One enable flag per input folder, and the three kind lists of one length. */
    ghost predicate Valid()
      reads this
    {
      |enableInputFolders| == |inputFolders| && |kindTemplates| == |kindOrder| && |kindTitles| == |kindOrder|
    }

    /** The kind table, row by row. */
    ghost function KindTable(): seq<KindRow>
      reads this
      requires Valid()
    {
      Rows(kindOrder, kindTemplates, kindTitles)
    }

    /** The field initialisers. */
    constructor(plugins: seq<KindAttributePlugin>)
      ensures Valid()
      ensures inputFolders == [] && enableInputFolders == [] && outputFolder == ""
      ensures writeTitle && !generateTableOfContents && writeAttributes && !inlineClasses
      ensures kindOrder == DefaultKindOrder && kindTemplates == DefaultKindTemplates && kindTitles == DefaultKindTitles
      ensures pluginConfigs == [] && this.plugins == plugins
    {
      inputFolders := [];
      enableInputFolders := [];
      outputFolder := "";
      writeTitle := true;
      generateTableOfContents := false;
      writeAttributes := true;
      inlineClasses := false;
      kindOrder := DefaultKindOrder;
      kindTemplates := DefaultKindTemplates;
      kindTitles := DefaultKindTitles;
      pluginConfigs := [];
      this.plugins := plugins;
    }

    /** The renderer's settings as this window holds them. */
    function RenderConfig(): Config
      reads this
    {
      Config(writeTitle, generateTableOfContents, writeAttributes, inlineClasses, kindOrder, kindTemplates, kindTitles)
    }

    /** The "↑" button of row i: swaps the row with the one above, if any. */
    method MoveKindUp(i: nat)
      requires Valid() && i < |kindOrder|
      modifies this
      ensures Valid()
      ensures KindTable() == if i > 0 then Swapped(old(KindTable()), i - 1, i) else old(KindTable())
      ensures kindOrder == if i > 0 then Swapped(old(kindOrder), i - 1, i) else old(kindOrder)
      ensures kindTemplates == if i > 0 then Swapped(old(kindTemplates), i - 1, i) else old(kindTemplates)
      ensures kindTitles == if i > 0 then Swapped(old(kindTitles), i - 1, i) else old(kindTitles)
      ensures inputFolders == old(inputFolders) && enableInputFolders == old(enableInputFolders) && pluginConfigs == old(pluginConfigs)
      ensures outputFolder == old(outputFolder)
      ensures RenderConfig() == old(RenderConfig()).(kindOrder := kindOrder, kindTemplates := kindTemplates, kindTitles := kindTitles)
    {
      if i > 0 {
        SwappedRows(kindOrder, kindTemplates, kindTitles, i - 1, i);
        kindOrder := Swapped(kindOrder, i - 1, i);
        kindTemplates := Swapped(kindTemplates, i - 1, i);
        kindTitles := Swapped(kindTitles, i - 1, i);
      }
    }

    /** The "↓" button of row i: swaps the row with the one below, if any. */
    method MoveKindDown(i: nat)
      requires Valid() && i < |kindOrder|
      modifies this
      ensures Valid()
      ensures KindTable() == if i < |old(kindOrder)| - 1 then Swapped(old(KindTable()), i + 1, i) else old(KindTable())
      ensures kindOrder == if i < |old(kindOrder)| - 1 then Swapped(old(kindOrder), i + 1, i) else old(kindOrder)
      ensures kindTemplates == if i < |old(kindOrder)| - 1 then Swapped(old(kindTemplates), i + 1, i) else old(kindTemplates)
      ensures kindTitles == if i < |old(kindOrder)| - 1 then Swapped(old(kindTitles), i + 1, i) else old(kindTitles)
      ensures inputFolders == old(inputFolders) && enableInputFolders == old(enableInputFolders) && pluginConfigs == old(pluginConfigs)
      ensures outputFolder == old(outputFolder)
      ensures RenderConfig() == old(RenderConfig()).(kindOrder := kindOrder, kindTemplates := kindTemplates, kindTitles := kindTitles)
    {
      if i < |kindOrder| - 1 {
        SwappedRows(kindOrder, kindTemplates, kindTitles, i + 1, i);
        kindOrder := Swapped(kindOrder, i + 1, i);
        kindTemplates := Swapped(kindTemplates, i + 1, i);
        kindTitles := Swapped(kindTitles, i + 1, i);
      }
    }

    /** The "-" button of row i: removes the row from all three lists. */
    method RemoveKind(i: nat)
      requires Valid() && i < |kindOrder|
      modifies this
      ensures Valid()
      ensures KindTable() == Removed(old(KindTable()), i)
      ensures kindOrder == Removed(old(kindOrder), i)
      ensures kindTemplates == Removed(old(kindTemplates), i)
      ensures kindTitles == Removed(old(kindTitles), i)
      ensures inputFolders == old(inputFolders) && enableInputFolders == old(enableInputFolders) && pluginConfigs == old(pluginConfigs)
      ensures outputFolder == old(outputFolder)
      ensures RenderConfig() == old(RenderConfig()).(kindOrder := kindOrder, kindTemplates := kindTemplates, kindTitles := kindTitles)
    {
      RemovedRows(kindOrder, kindTemplates, kindTitles, i);
      kindOrder := Removed(kindOrder, i);
      kindTemplates := Removed(kindTemplates, i);
      kindTitles := Removed(kindTitles, i);
    }

    /** The "Add Kind" button: appends a placeholder row. */
    method AddKind()
      requires Valid()
      modifies this
      ensures Valid()
      ensures KindTable() == old(KindTable()) + [KindRow("newKind", "newKind {0}", "NewKinds")]
      ensures kindOrder == old(kindOrder) + ["newKind"]
      ensures kindTemplates == old(kindTemplates) + ["newKind {0}"]
      ensures kindTitles == old(kindTitles) + ["NewKinds"]
      ensures inputFolders == old(inputFolders) && enableInputFolders == old(enableInputFolders) && pluginConfigs == old(pluginConfigs)
      ensures outputFolder == old(outputFolder)
      ensures RenderConfig() == old(RenderConfig()).(kindOrder := kindOrder, kindTemplates := kindTemplates, kindTitles := kindTitles)
    {
      ghost var before := KindTable();
      kindOrder := kindOrder + ["newKind"];
      kindTemplates := kindTemplates + ["newKind {0}"];
      kindTitles := kindTitles + ["NewKinds"];
      assert KindTable() == before + [KindRow("newKind", "newKind {0}", "NewKinds")] by {
        assert forall k :: 0 <= k < |before| ==> KindTable()[k] == before[k];
      }
    }

    /** LoadConfig without the plugin settings: nothing changes when there is
        no settings file; otherwise the saved settings are taken, and the lists
        that do not line up are rebuilt. */
    method LoadConfig(saved: Option<SavedConfig>)
      requires Valid()
      modifies this
      ensures Valid()
      ensures saved.None? ==>
        inputFolders == old(inputFolders) && enableInputFolders == old(enableInputFolders) &&
        RenderConfig() == old(RenderConfig()) && outputFolder == old(outputFolder) && pluginConfigs == old(pluginConfigs)
      ensures saved.Some? ==>
        FoldersLoaded(saved.value, inputFolders, enableInputFolders) &&
        KindsLoaded(saved.value, old(kindOrder), kindOrder, kindTemplates, kindTitles) &&
        outputFolder == saved.value.outputFolder &&
        writeTitle == saved.value.writeTitle && generateTableOfContents == saved.value.generateTableOfContents &&
        writeAttributes == saved.value.writeAttributes && inlineClasses == saved.value.inlineClasses &&
        pluginConfigs == (if saved.value.pluginConfigs.Some? then saved.value.pluginConfigs.value else [])
    {
      if saved.None? {
        return;
      }
      Apply(saved.value);
    }

    /** The loaded half of LoadConfig: every field taken from the saved configuration. */
    method Apply(config: SavedConfig)
      requires Valid()
      modifies this
      ensures Valid()
      ensures FoldersLoaded(config, inputFolders, enableInputFolders)
      ensures KindsLoaded(config, old(kindOrder), kindOrder, kindTemplates, kindTitles)
      ensures outputFolder == config.outputFolder
      ensures writeTitle == config.writeTitle && generateTableOfContents == config.generateTableOfContents
      ensures writeAttributes == config.writeAttributes && inlineClasses == config.inlineClasses
      ensures pluginConfigs == (if config.pluginConfigs.Some? then config.pluginConfigs.value else [])
    {
      ApplyFolders(config);
      ApplyKinds(config);
      outputFolder := config.outputFolder;
      writeTitle, generateTableOfContents := config.writeTitle, config.generateTableOfContents;
      writeAttributes, inlineClasses := config.writeAttributes, config.inlineClasses;
      pluginConfigs := if config.pluginConfigs.Some? then config.pluginConfigs.value else [];
    }

    /** The input folders and their flags taken from the saved configuration. */
    method ApplyFolders(config: SavedConfig)
      modifies this`inputFolders, this`enableInputFolders
      ensures FoldersLoaded(config, inputFolders, enableInputFolders)
    {
      inputFolders, enableInputFolders := LoadFolders(config);
    }

    /** The kind table taken from the saved configuration. */
    method ApplyKinds(config: SavedConfig)
      modifies this`kindOrder, this`kindTemplates, this`kindTitles
      ensures KindsLoaded(config, old(kindOrder), kindOrder, kindTemplates, kindTitles)
    {
      kindOrder, kindTemplates, kindTitles := LoadKinds(config, kindOrder);
    }

    /** GenerateDocumentation: nothing happens without an input folder or an
        output folder. Otherwise the enabled folders are parsed into one project
        (their namespaces appended in folder order), the enabled plugins run on
        it in order, and its pages are written. `sources` stands for finding
        and parsing a folder's C# files, `packageOf` for the package name
        derived from the folder, `parseXml` for the XML parser. */
    method GenerateDocumentation(heap: Heap, sources: string -> seq<CompilationUnit>, packageOf: string -> string,
                                 parseXml: string -> XmlParse, fs: FileSystem)
      returns (ghost parsed: seq<DocumentationItem>, ghost namespaces: seq<NamespaceInfo>)
      requires Valid() && Forest(heap.items) && |plugins| <= |pluginConfigs|
      modifies heap, fs
      ensures |inputFolders| == 0 || outputFolder == "" ==> heap.items == old(heap.items) && fs.files == old(fs.files)
      ensures |inputFolders| > 0 && outputFolder != "" ==>
        Forest(parsed) && ProjectRoots(parsed, namespaces) &&
        ProjectTrees(parsed, namespaces) == EnabledTrees(inputFolders, enableInputFolders, sources, packageOf) &&
        heap.items == PluginsApplied(parsed, namespaces, RulesOf(EnabledPlugins(plugins, pluginConfigs))) &&
        fs.files == ApplyWrites(old(fs.files), ProjectWrites(RenderConfig(), parseXml, heap.items, namespaces, outputFolder))
    {
      parsed, namespaces := heap.items, [];
      if |inputFolders| == 0 || outputFolder == "" {
        return;
      }
      parsed, namespaces := GenerateEnabled(heap, sources, packageOf, parseXml, fs);
    }

    /** GenerateDocumentation once both folders are set: parse and run the
        plugins, then render. */
    method GenerateEnabled(heap: Heap, sources: string -> seq<CompilationUnit>, packageOf: string -> string,
                           parseXml: string -> XmlParse, fs: FileSystem)
      returns (ghost parsed: seq<DocumentationItem>, ghost namespaces: seq<NamespaceInfo>)
      requires Valid() && Forest(heap.items) && |plugins| <= |pluginConfigs|
      modifies heap, fs
      ensures Forest(parsed) && ProjectRoots(parsed, namespaces)
      ensures ProjectTrees(parsed, namespaces) == EnabledTrees(inputFolders, enableInputFolders, sources, packageOf)
      ensures heap.items == PluginsApplied(parsed, namespaces, RulesOf(EnabledPlugins(plugins, pluginConfigs)))
      ensures fs.files == ApplyWrites(old(fs.files), ProjectWrites(RenderConfig(), parseXml, heap.items, namespaces, outputFolder))
    {
      var project;
      project, parsed := Prepare(heap, sources, packageOf);
      namespaces := project.namespaces;
      Render(project, heap, parseXml, fs);
    }

    /** The parsing and plugin half of GenerateDocumentation. */
    method Prepare(heap: Heap, sources: string -> seq<CompilationUnit>, packageOf: string -> string)
      returns (project: DocumentationProject, ghost parsed: seq<DocumentationItem>)
      requires Valid() && Forest(heap.items) && |plugins| <= |pluginConfigs|
      modifies heap
      ensures fresh(project)
      ensures Forest(parsed) && ProjectRoots(parsed, project.namespaces)
      ensures ProjectTrees(parsed, project.namespaces) == EnabledTrees(inputFolders, enableInputFolders, sources, packageOf)
      ensures heap.items == PluginsApplied(parsed, project.namespaces, RulesOf(EnabledPlugins(plugins, pluginConfigs)))
      ensures Forest(heap.items) && ProjectRoots(heap.items, project.namespaces)
    {
      project := ParseFolders(heap, sources, packageOf);
      parsed := heap.items;
      RunPlugins(project, heap, EnabledPlugins(plugins, pluginConfigs));
    }

    /** The rendering half of GenerateDocumentation: one MarkdownGenerator over
        this configuration, run on the project. */
    method Render(project: DocumentationProject, heap: Heap, parseXml: string -> XmlParse, fs: FileSystem)
      requires Forest(heap.items) && ProjectRoots(heap.items, project.namespaces)
      modifies fs
      ensures fs.files == ApplyWrites(old(fs.files), ProjectWrites(RenderConfig(), parseXml, heap.items, project.namespaces, outputFolder))
    {
      var generator := new MarkdownGenerator(writeTitle, generateTableOfContents, writeAttributes, inlineClasses, kindOrder,
        kindTemplates, kindTitles, parseXml);
      generator.GenerateMarkdown(project, heap, outputFolder, fs);
    }

    /** The parsing loop of GenerateDocumentation: one parser, one project, and
        the namespaces of each enabled folder appended to it. */
    method ParseFolders(heap: Heap, sources: string -> seq<CompilationUnit>, packageOf: string -> string) returns (project: DocumentationProject)
      requires Valid() && Forest(heap.items)
      modifies heap
      ensures fresh(project)
      ensures Forest(heap.items) && ProjectRoots(heap.items, project.namespaces)
      ensures ProjectTrees(heap.items, project.namespaces) == EnabledTrees(inputFolders, enableInputFolders, sources, packageOf)
    {
      project := new DocumentationProject();
      for i := 0 to |inputFolders|
        invariant fresh(project)
        invariant Forest(heap.items) && ProjectRoots(heap.items, project.namespaces)
        invariant ProjectTrees(heap.items, project.namespaces) == EnabledTrees(inputFolders[..i], enableInputFolders[..i], sources, packageOf)
      {
        assert inputFolders[..i + 1][..i] == inputFolders[..i] && enableInputFolders[..i + 1][..i] == enableInputFolders[..i];
        if enableInputFolders[i] {
          ParseFolder(project, heap, sources(inputFolders[i]), packageOf(inputFolders[i]));
        }
      }
      assert inputFolders[..|inputFolders|] == inputFolders && enableInputFolders[..|enableInputFolders|] == enableInputFolders;
    }

    /** One enabled folder of ParseFolders: its files parsed into a project of
        their own, whose namespaces are appended to the combined project. */
    method ParseFolder(project: DocumentationProject, heap: Heap, files: seq<CompilationUnit>, packageName: string)
      requires Forest(heap.items) && ProjectRoots(heap.items, project.namespaces)
      modifies heap, project
      ensures Forest(heap.items) && ProjectRoots(heap.items, project.namespaces)
      ensures ProjectTrees(heap.items, project.namespaces) == old(ProjectTrees(heap.items, project.namespaces)) + ProjectSpec(files, packageName)
    {
      ghost var before := heap.items;
      var folderProject := ParseProject(heap, files, packageName);
      ProjectTreesGrow(before, heap.items, project.namespaces);
      RootsAppend(before, heap.items, project.namespaces, folderProject.namespaces);
      ProjectTreesAppend(heap.items, project.namespaces, folderProject.namespaces);
      project.namespaces := project.namespaces + folderProject.namespaces;
    }

    /** `foreach (var plugin in enabledPlugins) plugin.Generate(project)`. */
    method RunPlugins(project: DocumentationProject, heap: Heap, enabledPlugins: seq<KindAttributePlugin>)
      requires Forest(heap.items) && ProjectRoots(heap.items, project.namespaces)
      modifies heap
      ensures heap.items == PluginsApplied(old(heap.items), project.namespaces, RulesOf(enabledPlugins))
    {
      ghost var start := heap.items;
      for k := 0 to |enabledPlugins|
        invariant heap.items == PluginsApplied(start, project.namespaces, RulesOf(enabledPlugins[..k]))
      {
        assert enabledPlugins[..k + 1][..k] == enabledPlugins[..k];
        enabledPlugins[k].Generate(project, heap);
      }
      assert enabledPlugins[..|enabledPlugins|] == enabledPlugins;
    }
  }
}
