/** The tool loader: finds or loads the tool's assembly, picks the type that
    implements ITool<TOptions>, parses the remaining arguments into a
    TOptions value and calls the tool's Execute(TOptions) through a
    placeholder method whose machine code is overwritten with a jump to it. */
module Loader {
  import opened Wrappers
  import opened Bytes
  import opened Text
  import opened Machine
  import opened Runtime
  import opened JumpStub

  /** The exceptions that end a run of the loader. */
  datatype LoaderError =
    | ModuleLoadError     // Assembly.LoadFrom cannot load the file at the tool path
    | ToolTypeNotFound    // no type implements ITool<TOptions>
    | EntryPointNotFound  // the tool type has no public Execute(TOptions)

  // ---------------------------------------------------------------------------
  // GetOrLoadAssembly

  /** The position of the first assembly whose simple name equals name,
      ignoring case (FirstOrDefault over AppDomain.GetAssemblies). */
  function FirstNamed(assemblies: seq<Assembly>, name: string): (r: Option<nat>)
    ensures r.Some? ==> r.value < |assemblies| && EqualsIgnoreCase(assemblies[r.value].name, name)
    ensures r.Some? ==> forall j :: 0 <= j < r.value ==> !EqualsIgnoreCase(assemblies[j].name, name)
    ensures r.None? ==> forall j :: 0 <= j < |assemblies| ==> !EqualsIgnoreCase(assemblies[j].name, name)
  {
    if assemblies == [] then None
    else if EqualsIgnoreCase(assemblies[0].name, name) then Some(0)
    else
      match FirstNamed(assemblies[1..], name)
      case None => None
      case Some(i) => Some(i + 1)
  }

  /** The outcome of GetOrLoadAssembly and the domain's assemblies after it. */
  datatype Resolution = Resolution(result: Result<Assembly, LoaderError>, loaded: seq<Assembly>)

  /** GetOrLoadAssembly(path) in a domain holding assemblies, where the file
      at path holds fromFile (None when it cannot be loaded). */
  function Resolve(assemblies: seq<Assembly>, path: string, fromFile: Option<Assembly>): Resolution
  {
    match FirstNamed(assemblies, FileNameWithoutExtension(path))
    case Some(i) => Resolution(Success(assemblies[i]), assemblies)
    case None =>
      match fromFile
      case None => Resolution(Failure(ModuleLoadError), assemblies)
      case Some(a) => Resolution(Success(a), assemblies + [a])
  }

  method GetOrLoadAssembly(domain: AppDomain, assemblyPath: string, fromFile: Option<Assembly>)
    returns (assembly: Result<Assembly, LoaderError>)
    modifies domain
    ensures assembly == Resolve(old(domain.assemblies), assemblyPath, fromFile).result
    ensures domain.assemblies == Resolve(old(domain.assemblies), assemblyPath, fromFile).loaded
  {
    var assemblyName := FileNameWithoutExtension(assemblyPath);
    var found := FirstNamed(domain.assemblies, assemblyName);
    if found.Some? {
      assembly := Success(domain.assemblies[found.value]);
    } else if fromFile.None? {
      assembly := Failure(ModuleLoadError);
    } else {
      domain.LoadFrom(fromFile.value);
      assembly := Success(fromFile.value);
    }
  }

  /** When some loaded assembly has the path's file name (ignoring case), the
      first such one is returned and nothing is loaded. */
  lemma ResolveReusesFirstMatch(assemblies: seq<Assembly>, path: string, fromFile: Option<Assembly>, i: nat)
    requires i < |assemblies| && EqualsIgnoreCase(assemblies[i].name, FileNameWithoutExtension(path))
    requires forall j :: 0 <= j < i ==> !EqualsIgnoreCase(assemblies[j].name, FileNameWithoutExtension(path))
    ensures Resolve(assemblies, path, fromFile) == Resolution(Success(assemblies[i]), assemblies)
  {
  }

  /** The domain gains an assembly, the file's, exactly when none matches
      and the file can be loaded; a file that cannot be loaded fails only
      then; a match is returned without loading. */
  lemma ResolveLoadsOnlyWhenUnmatched(assemblies: seq<Assembly>, path: string, fromFile: Option<Assembly>)
    ensures var name := FileNameWithoutExtension(path);
      var r := Resolve(assemblies, path, fromFile);
      var none := forall j :: 0 <= j < |assemblies| ==> !EqualsIgnoreCase(assemblies[j].name, name);
      (!none ==> r.result.Success? && r.loaded == assemblies) &&
      (none && fromFile.None? ==> r == Resolution(Failure(ModuleLoadError), assemblies)) &&
      (none && fromFile.Some? ==> r == Resolution(Success(fromFile.value), assemblies + [fromFile.value]))
  {
    var name := FileNameWithoutExtension(path);
    var f := FirstNamed(assemblies, name);
    if f.Some? {
      assert EqualsIgnoreCase(assemblies[f.value].name, name);
    }
  }

  /** Names equal ignoring case find the same first assembly. */
  lemma FirstNamedEquivalentNames(assemblies: seq<Assembly>, name: string, name': string)
    requires EqualsIgnoreCase(name, name')
    ensures FirstNamed(assemblies, name) == FirstNamed(assemblies, name')
  {
  }

  /** A second GetOrLoadAssembly for the same logical name (any path whose
      file name equals the first's ignoring case) returns the same assembly
      and loads nothing, once the first call's assembly carries that name. */
  lemma ResolveRepeated(assemblies: seq<Assembly>, path: string, fromFile: Option<Assembly>,
                        path': string, fromFile': Option<Assembly>)
    requires Resolve(assemblies, path, fromFile).result.Success?
    requires fromFile.Some? ==> EqualsIgnoreCase(fromFile.value.name, FileNameWithoutExtension(path))
    requires EqualsIgnoreCase(FileNameWithoutExtension(path), FileNameWithoutExtension(path'))
    ensures var first := Resolve(assemblies, path, fromFile);
      Resolve(first.loaded, path', fromFile') == first
  {
    var name, name' := FileNameWithoutExtension(path), FileNameWithoutExtension(path');
    FirstNamedEquivalentNames(assemblies, name, name');
    var f := FirstNamed(assemblies, name);
    if f.None? {
      var a := fromFile.value;
      var s := assemblies + [a];
      EqualsIgnoreCaseTransitive(a.name, name, name');
      FirstNamedEquivalentNames(s, name, name');
      var g := FirstNamed(s, name);
      assert s[|assemblies|] == a;
      assert s[..|assemblies|] == assemblies;
    }
  }

  // ---------------------------------------------------------------------------
  // CreateToolInstance

  /** An interface matches ITool<TOptions>: a generic type constructed from
      ITool<> with exactly one type argument. */
  predicate IsToolInterface(i: InterfaceRef)
  {
    i.isGenericType && i.genericDefinition == ToolDefinition && |i.genericArguments| == 1
  }

  predicate ImplementsTool(t: TypeInfo)
  {
    exists l :: 0 <= l < |t.interfaces| && IsToolInterface(t.interfaces[l])
  }

  /** The tool type that is instantiated and its options type TOptions. */
  datatype ToolInstance = ToolInstance(toolType: TypeRef, optionsType: TypeRef)

  /** The type argument of the first ITool<TOptions> among interfaces. */
  function FindOptionsType(interfaces: seq<InterfaceRef>): Option<TypeRef>
  {
    if interfaces == [] then None
    else if IsToolInterface(interfaces[0]) then Some(interfaces[0].genericArguments[0])
    else FindOptionsType(interfaces[1..])
  }

  /** The first type, in scan order, that implements ITool<TOptions>. */
  function FindTool(types: seq<TypeInfo>): Option<ToolInstance>
  {
    if types == [] then None
    else
      match FindOptionsType(types[0].interfaces)
      case Some(o) => Some(ToolInstance(types[0].self, o))
      case None => FindTool(types[1..])
  }

  lemma {:induction false} FindOptionsTypeIsFirst(interfaces: seq<InterfaceRef>, l: nat)
    requires l < |interfaces| && IsToolInterface(interfaces[l])
    requires forall l' :: 0 <= l' < l ==> !IsToolInterface(interfaces[l'])
    ensures FindOptionsType(interfaces) == Some(interfaces[l].genericArguments[0])
  {
    if l > 0 {
      assert !IsToolInterface(interfaces[0]);
      FindOptionsTypeIsFirst(interfaces[1..], l - 1);
    }
  }

  lemma {:induction false} FindOptionsTypeNone(interfaces: seq<InterfaceRef>)
    ensures FindOptionsType(interfaces).None? <==> forall l :: 0 <= l < |interfaces| ==> !IsToolInterface(interfaces[l])
  {
    if interfaces != [] {
      FindOptionsTypeNone(interfaces[1..]);
      assert forall l :: 1 <= l < |interfaces| ==> interfaces[l] == interfaces[1..][l - 1];
    }
  }

  /** The tool found is the first type implementing ITool<TOptions>, and its
      options type is the argument of that type's first such interface. */
  lemma {:induction false} FindToolIsFirstMatch(types: seq<TypeInfo>, k: nat, l: nat)
    requires k < |types| && l < |types[k].interfaces| && IsToolInterface(types[k].interfaces[l])
    requires forall k' :: 0 <= k' < k ==> !ImplementsTool(types[k'])
    requires forall l' :: 0 <= l' < l ==> !IsToolInterface(types[k].interfaces[l'])
    ensures FindTool(types) == Some(ToolInstance(types[k].self, types[k].interfaces[l].genericArguments[0]))
  {
    if k == 0 {
      FindOptionsTypeIsFirst(types[0].interfaces, l);
    } else {
      assert !ImplementsTool(types[0]);
      FindOptionsTypeNone(types[0].interfaces);
      FindToolIsFirstMatch(types[1..], k - 1, l);
    }
  }

  /** No tool is found exactly when no type implements ITool<TOptions>. */
  lemma {:induction false} FindToolNone(types: seq<TypeInfo>)
    ensures FindTool(types).None? <==> forall k :: 0 <= k < |types| ==> !ImplementsTool(types[k])
  {
    if types != [] {
      FindOptionsTypeNone(types[0].interfaces);
      FindToolNone(types[1..]);
      assert forall k :: 1 <= k < |types| ==> types[k] == types[1..][k - 1];
    }
  }

  /** A module with exactly one tool type yields that type and the argument of
      its ITool<TOptions> interface. */
  lemma FindToolUnique(types: seq<TypeInfo>, k: nat, l: nat)
    requires k < |types| && l < |types[k].interfaces| && IsToolInterface(types[k].interfaces[l])
    requires forall k' :: 0 <= k' < |types| && k' != k ==> !ImplementsTool(types[k'])
    requires forall l' :: 0 <= l' < |types[k].interfaces| && l' != l ==> !IsToolInterface(types[k].interfaces[l'])
    ensures FindTool(types) == Some(ToolInstance(types[k].self, types[k].interfaces[l].genericArguments[0]))
  {
    FindToolIsFirstMatch(types, k, l);
  }

  /** Scans the types of the assembly's manifest module and each type's
      interfaces for ITool<TOptions>; the first match is instantiated
      (Activator.CreateInstance) and TOptions becomes the options type. */
  method CreateToolInstance(assembly: Assembly) returns (tool: Result<ToolInstance, LoaderError>)
    ensures FindTool(assembly.types).Some? ==> tool == Success(FindTool(assembly.types).value)
    ensures FindTool(assembly.types).None? ==> tool == Failure(ToolTypeNotFound)
  {
    var types := assembly.types;
    var i := 0;
    while i < |types|
      invariant 0 <= i <= |types|
      invariant FindTool(types) == FindTool(types[i..])
    {
      var interfaces := types[i].interfaces;
      var j := 0;
      while j < |interfaces|
        invariant 0 <= j <= |interfaces|
        invariant FindOptionsType(interfaces) == FindOptionsType(interfaces[j..])
      {
        var interfaceType := interfaces[j];
        if !interfaceType.isGenericType || interfaceType.genericDefinition != ToolDefinition {
          assert interfaces[j..][1..] == interfaces[j + 1..];
          j := j + 1;
          continue;
        }
        var genericArguments := interfaceType.genericArguments;
        if |genericArguments| != 1 {
          assert interfaces[j..][1..] == interfaces[j + 1..];
          j := j + 1;
          continue;
        }
        return Success(ToolInstance(types[i].self, genericArguments[0]));
      }
      assert types[i..][1..] == types[i + 1..];
      i := i + 1;
    }
    return Failure(ToolTypeNotFound);
  }

  // ---------------------------------------------------------------------------
  // IsN00bUser and HasEnv

  /** A key of the environment-variable table; the table's keys are objects,
      and only string keys are compared. */
  datatype EnvKey = StringKey(s: string) | OtherKey

  /** Some environment variable is called name, ignoring case. */
  predicate HasKey(keys: seq<EnvKey>, name: string)
  {
    exists i :: 0 <= i < |keys| && keys[i].StringKey? && EqualsIgnoreCase(keys[i].s, name)
  }

  method HasEnv(keys: seq<EnvKey>, name: string) returns (found: bool)
    ensures found <==> HasKey(keys, name)
  {
    var i := 0;
    while i < |keys|
      invariant 0 <= i <= |keys|
      invariant forall k :: 0 <= k < i ==> !(keys[k].StringKey? && EqualsIgnoreCase(keys[k].s, name))
    {
      var key := keys[i];
      if !key.StringKey? {
        i := i + 1;
        continue;
      }
      if EqualsIgnoreCase(key.s, name) {
        return true;
      }
      i := i + 1;
    }
    return false;
  }

  /** The pause-before-exit heuristic: not under Visual Studio, not under a
      Unix-style shell, on Windows, and not started from a command prompt. */
  method IsN00bUser(keys: seq<EnvKey>) returns (novice: bool)
    ensures novice <==> !HasKey(keys, "VisualStudioDir") && !HasKey(keys, "SHELL")
                        && HasKey(keys, "windir") && !HasKey(keys, "PROMPT")
  {
    var b := HasEnv(keys, "VisualStudioDir");
    if b {
      return false;
    }
    b := HasEnv(keys, "SHELL");
    if b {
      return false;
    }
    b := HasEnv(keys, "windir");
    if !b {
      return false;
    }
    b := HasEnv(keys, "PROMPT");
    return !b;
  }

  // ---------------------------------------------------------------------------
  // GetTitle

  /** The exceptions GetTitle's substring operations raise. */
  datatype TitleError =
    | CopyrightTooShort    // Substring(12) beyond the end of the copyright text
    | NoBlankInCopyright   // Substring(0, -1) when IndexOf(' ') finds no blank

  /** "<product> v<version> by <owner> <year>" from the assembly's product
      name, version and copyright text "Copyright © <year> <owner>" (the
      first 12 characters are skipped; the year runs up to the first blank). */
  function GetTitle(productName: string, version: string, copyright: string): (r: Result<string, TitleError>)
    ensures r.Success? <==> |copyright| >= 12 && ' ' in copyright[12..]
    ensures |copyright| < 12 ==> r == Failure(CopyrightTooShort)
    ensures |copyright| >= 12 && ' ' !in copyright[12..] ==> r == Failure(NoBlankInCopyright)
  {
    if |copyright| < 12 then Failure(CopyrightTooShort)
    else
      var tail := copyright[12..];
      var firstBlankIndex := IndexOf(tail, ' ');
      var copyrightOwnerName := tail[firstBlankIndex + 1..];
      if firstBlankIndex < 0 then Failure(NoBlankInCopyright)
      else
        var copyrightYear := tail[..firstBlankIndex];
        Success(productName + " v" + version + " by " + copyrightOwnerName + " " + copyrightYear)
  }

  /** For copyright text "<12 characters><year> <owner>" with no blank in the
      year, the title names the owner and then the year. */
  lemma GetTitleParts(productName: string, version: string, copyright: string, year: string, owner: string)
    requires |copyright| >= 12 && copyright[12..] == year + " " + owner && ' ' !in year
    ensures GetTitle(productName, version, copyright) == Success(productName + " v" + version + " by " + owner + " " + year)
  {
    var tail := copyright[12..];
    assert tail[|year|] == ' ';
    var k := IndexOf(tail, ' ');
    assert tail[..|year|] == year;
    assert tail[..k] == year;
    assert tail[k + 1..] == owner;
  }

  // ---------------------------------------------------------------------------
  // Write and WriteJmp

  /** Writes value over memory at address, making the range writable first
      and then setting it back to the protection VirtualProtect reported. */
  method Write(m: Memory, address: nat, value: array<byte>)
    requires m.Valid() && value != m.bytes
    requires address < m.bytes.Length && address + value.Length <= m.bytes.Length
    modifies m, m.bytes
    ensures m.Valid() && m.bytes == old(m.bytes)
    ensures m.bytes[..] == Overwritten(old(m.bytes[..]), address, value[..])
    ensures m.protection == Overwritten(old(m.protection), address, Uniform(value.Length, old(m.protection[address])))
  {
    var oldProtection := m.VirtualProtect(address, value.Length, PageExecuteReadWrite);
    m.Copy(value, address);
    var _ := m.VirtualProtect(address, value.Length, oldProtection);
  }

  /** A range that had one protection before Write has it again afterwards. */
  lemma WriteRestoresUniformProtection(protection: seq<Protection>, address: nat, n: nat)
    requires address < |protection| && address + n <= |protection|
    requires forall i :: address <= i < address + n ==> protection[i] == protection[address]
    ensures Overwritten(protection, address, Uniform(n, protection[address])) == protection
  {
  }

  /** Overwrites the code at address with a jump to target: JMP rel32 on a
      32-bit process, MOV RAX, imm64; JMP RAX on a 64-bit one. */
  method WriteJmp(m: Memory, arch: Arch, address: nat, target: nat)
    requires m.Valid() && address + StubLength(arch) <= m.bytes.Length
    modifies m, m.bytes
    ensures m.Valid() && m.bytes == old(m.bytes)
    ensures m.bytes[..] == Overwritten(old(m.bytes[..]), address, Stub(arch, address, target))
    ensures m.protection == Overwritten(old(m.protection), address, Uniform(StubLength(arch), old(m.protection[address])))
    ensures target < AddressLimit(arch) ==> JumpTarget(arch, m.bytes[..], address) == Some(target)
  {
    var jmpStub: array<byte>;
    if arch == X86 {
      jmpStub := new byte[] [0xE9, 0x00, 0x00, 0x00, 0x00];
      StoreLittleEndian(jmpStub, 1, 4, Displacement32(address, target) % TwoTo32);
      assert jmpStub[..] == JmpRel32(address, target);
    } else {
      jmpStub := new byte[] [0x48, 0xB8, 0x00, 0x00, 0x00, 0x00, 0x00, 0x00, 0x00, 0x00, 0xFF, 0xE0];
      StoreLittleEndian(jmpStub, 2, 8, target);
      assert jmpStub[..] == MovRaxJmpRax(target);
    }
    Write(m, address, jmpStub);
    if target < AddressLimit(arch) {
      StubJumpsToTarget(arch, old(m.bytes[..]), address, target);
    }
  }

  // ---------------------------------------------------------------------------
  // Execute

  /** What CommandLine.TryParse<TOptions> reports: its return value, the
      options it filled in and whether usage was asked for. */
  datatype ParseResult<Opt> = ParseResult(success: bool, options: Opt, showUsage: bool)

  /** How a run of Execute ends. */
  datatype Run<Opt> =
    | PromptForCommandLine                                 // no arguments: the interactive prompt
    | Failed(error: LoaderError)
    | UsageShown(optionsType: TypeRef)                     // CommandLine.ShowUsage<TOptions>()
    | Invoked(tool: ToolInstance, options: Opt, target: nat) // ExecuteStub(tool, options), jumping to target

  /** The tool's own arguments: every argument after the tool path. */
  method ToolArguments(args: array<string>) returns (toolArguments: array<string>)
    requires args.Length >= 1
    ensures fresh(toolArguments) && toolArguments.Length == args.Length - 1
    ensures forall i :: 0 <= i < toolArguments.Length ==> toolArguments[i] == args[i + 1]
  {
    toolArguments := new string[args.Length - 1];
    for i := 0 to toolArguments.Length
      invariant forall k :: 0 <= k < i ==> toolArguments[k] == args[k + 1]
    {
      toolArguments[i] := args[i + 1];
    }
  }

  /** The run Execute makes for the arguments args, given the domain's loaded
      assemblies, the assembly in the file at args[0], the parser, and the
      entry address of the tool's Execute(TOptions) (None when it has none). */
  function ExpectedRun<Opt>(assemblies: seq<Assembly>, args: seq<string>, fromFile: Option<Assembly>,
                            parse: (TypeRef, seq<string>) -> ParseResult<Opt>,
                            entryPoint: ToolInstance -> Option<nat>): Run<Opt>
  {
    if args == [] then PromptForCommandLine
    else
      match Resolve(assemblies, args[0], fromFile).result
      case Failure(e) => Failed(e)
      case Success(assembly) =>
        match FindTool(assembly.types)
        case None => Failed(ToolTypeNotFound)
        case Some(tool) => Dispatch(tool, parse(tool.optionsType, args[1..]), entryPoint)
  }

  /** The branch Execute takes once the tool is known and its arguments are
      parsed: call the stub, or show usage. */
  function Dispatch<Opt>(tool: ToolInstance, parsed: ParseResult<Opt>,
                         entryPoint: ToolInstance -> Option<nat>): Run<Opt>
  {
    if parsed.success && !parsed.showUsage then
      match entryPoint(tool)
      case None => Failed(EntryPointNotFound)
      case Some(target) => Invoked(tool, parsed.options, target)
    else UsageShown(tool.optionsType)
  }

  /** Once the tool is found, the run is the dispatch on the parse of the
      arguments after the tool path. */
  lemma ExpectedRunDispatches<Opt>(assemblies: seq<Assembly>, args: seq<string>, fromFile: Option<Assembly>,
                                   parse: (TypeRef, seq<string>) -> ParseResult<Opt>,
                                   entryPoint: ToolInstance -> Option<nat>, assembly: Assembly, tool: ToolInstance)
    requires args != [] && Resolve(assemblies, args[0], fromFile).result == Success(assembly)
    requires FindTool(assembly.types) == Some(tool)
    ensures ExpectedRun(assemblies, args, fromFile, parse, entryPoint)
         == Dispatch(tool, parse(tool.optionsType, args[1..]), entryPoint)
  {
  }

  /** Exactly one of the two branches follows a parse: the stub is called with
      the parsed options, unchanged, only when TryParse succeeded without
      asking for usage; otherwise usage is shown. */
  lemma DispatchRouting<Opt>(tool: ToolInstance, parsed: ParseResult<Opt>, entryPoint: ToolInstance -> Option<nat>)
    ensures var run := Dispatch(tool, parsed, entryPoint);
      (run.UsageShown? <==> !(parsed.success && !parsed.showUsage)) &&
      (run.Invoked? <==> parsed.success && !parsed.showUsage && entryPoint(tool).Some?) &&
      (run.Invoked? ==> run.tool == tool && run.options == parsed.options && Some(run.target) == entryPoint(tool)) &&
      (run.UsageShown? ==> run.optionsType == tool.optionsType)
  {
  }

  /** A tool path that names no loaded assembly and no loadable file ends the
      run with ModuleLoadError, before any discovery, parse or patch. */
  lemma ExecuteUnloadable<Opt>(assemblies: seq<Assembly>, args: seq<string>,
                               parse: (TypeRef, seq<string>) -> ParseResult<Opt>,
                               entryPoint: ToolInstance -> Option<nat>)
    requires args != []
    requires forall j :: 0 <= j < |assemblies| ==> !EqualsIgnoreCase(assemblies[j].name, FileNameWithoutExtension(args[0]))
    ensures ExpectedRun(assemblies, args, None, parse, entryPoint) == Failed(ModuleLoadError)
  {
  }

  /** Execute(args): load the tool, find its type, parse the remaining
      arguments and either show usage or patch the placeholder ExecuteStub
      (at stubAddress) to jump to the tool's Execute and call it. */
  method Execute<Opt>(domain: AppDomain, m: Memory, arch: Arch, args: array?<string>,
                      fromFile: Option<Assembly>, parse: (TypeRef, seq<string>) -> ParseResult<Opt>,
                      stubAddress: nat, entryPoint: ToolInstance -> Option<nat>)
    returns (run: Run<Opt>)
    requires m.Valid() && stubAddress + StubLength(arch) <= m.bytes.Length
    modifies domain, m, m.bytes
    ensures m.Valid() && m.bytes == old(m.bytes)
    ensures run == ExpectedRun(old(domain.assemblies), if args == null then [] else args[..],
                               fromFile, parse, entryPoint)
    ensures domain.assemblies == if args == null || args.Length == 0 then old(domain.assemblies)
                                 else Resolve(old(domain.assemblies), args[0], fromFile).loaded
    ensures run.Invoked? && run.target != stubAddress ==>
      m.bytes[..] == Overwritten(old(m.bytes[..]), stubAddress, Stub(arch, stubAddress, run.target)) &&
      m.protection == Overwritten(old(m.protection), stubAddress,
                                  Uniform(StubLength(arch), old(m.protection[stubAddress])))
    ensures !(run.Invoked? && run.target != stubAddress) ==>
      m.bytes[..] == old(m.bytes[..]) && m.protection == old(m.protection)
  {
    if args == null || args.Length == 0 {
      return PromptForCommandLine;
    }
    ghost var given, loaded := args[..], domain.assemblies;
    var toolPath := args[0];
    assert given != [] && given[0] == toolPath;
    var toolAssembly := GetOrLoadAssembly(domain, toolPath, fromFile);
    assert toolAssembly == Resolve(loaded, toolPath, fromFile).result;
    if toolAssembly.Failure? {
      assert ExpectedRun(loaded, given, fromFile, parse, entryPoint) == Failed(toolAssembly.error);
      return Failed(toolAssembly.error);
    }
    var tool := CreateToolInstance(toolAssembly.value);
    if tool.Failure? {
      assert FindTool(toolAssembly.value.types).None?;
      assert ExpectedRun(loaded, given, fromFile, parse, entryPoint) == Failed(ToolTypeNotFound);
      return Failed(tool.error);
    }
    assert FindTool(toolAssembly.value.types) == Some(tool.value);
    var toolArguments := ToolArguments(args);
    assert toolArguments[..] == given[1..];
    var parsed := parse(tool.value.optionsType, toolArguments[..]);
    ExpectedRunDispatches(loaded, given, fromFile, parse, entryPoint, toolAssembly.value, tool.value);
    run := CallOrShowUsage(m, arch, tool.value, parsed, stubAddress, entryPoint);
  }

  /** The branch of Execute that follows TryParse: on success without a usage
      request, patch ExecuteStub to jump to the tool's Execute (unless they
      already share an address) and call it; otherwise show usage. */
  method CallOrShowUsage<Opt>(m: Memory, arch: Arch, tool: ToolInstance, parsed: ParseResult<Opt>,
                              stubAddress: nat, entryPoint: ToolInstance -> Option<nat>)
    returns (run: Run<Opt>)
    requires m.Valid() && stubAddress + StubLength(arch) <= m.bytes.Length
    modifies m, m.bytes
    ensures m.Valid() && m.bytes == old(m.bytes)
    ensures run == Dispatch(tool, parsed, entryPoint)
    ensures run.Invoked? && run.target != stubAddress ==>
      m.bytes[..] == Overwritten(old(m.bytes[..]), stubAddress, Stub(arch, stubAddress, run.target)) &&
      m.protection == Overwritten(old(m.protection), stubAddress,
                                  Uniform(StubLength(arch), old(m.protection[stubAddress])))
    ensures !(run.Invoked? && run.target != stubAddress) ==>
      m.bytes[..] == old(m.bytes[..]) && m.protection == old(m.protection)
  {
    if parsed.success && !parsed.showUsage {
      var realExecute := entryPoint(tool);
      if realExecute.None? {
        return Failed(EntryPointNotFound);
      }
      var address, target := stubAddress, realExecute.value;
      if address != target {
        WriteJmp(m, arch, address, target);
      }
      run := Invoked(tool, parsed.options, target);
    } else {
      run := UsageShown(tool.optionsType);
    }
  }
}
