# ToolLoader: a Dafny model of the loader core

ToolLoader is a plugin host for .NET command-line tools. `Loader.Execute`
takes the tool assembly's path as its first argument. It reuses an assembly
that is already loaded under the same name, ignoring case, or loads the file.
It then finds the first type that implements `ITool<TOptions>` and hands the
remaining arguments to the external `CommandLine.TryParse<TOptions>`. If the
parse succeeds and usage was not requested, it calls the tool's
`Execute(TOptions)`. This call goes through a placeholder method,
`ExecuteStub`. Before the call, the loader overwrites the placeholder's
compiled machine code with a jump to the real method. On a 32-bit process the
jump is `JMP rel32`. On a 64-bit process it is `MOV RAX, imm64; JMP RAX`.
Code pages are not writable, so the write is bracketed by two
`VirtualProtect` calls. The first makes the range writable, and the second
restores the protection the first reported.

The model has seven modules:

- `Bytes`: bytes and little-endian integers, with both round trips.
- `Text`: the .NET string and path routines the loader uses. These are
  ordinal ignore-case equality, `IndexOf`, `LastIndexOf`, `Path.GetFileName`
  and `Path.GetFileNameWithoutExtension`.
- `Machine`: process memory as a class. It holds a byte array and a
  protection value per byte. It also has `VirtualProtect`, `Marshal.Copy` and
  the unaligned pointer store. `Marshal.Copy` requires every byte it writes
  to be `PAGE_EXECUTE_READWRITE`, so a write that is not bracketed by the
  protection change does not verify.
- `JumpStub`: the two encodings, following the JMP and MOV entries of the
  Intel 64 and IA-32 Architectures Software Developer's Manual, Volume 2. It
  also has a decoder that gives the address control reaches when those bytes
  run, plus the proof that the written stub reaches the target.
- `Runtime`: what reflection reports, as plain values. These are types,
  interfaces, assemblies, and the application domain's list of loaded
  assemblies.
- `Loader`: the static class's methods. These are `GetOrLoadAssembly`,
  `CreateToolInstance`, `HasEnv`, `IsN00bUser`, `GetTitle`, `Write`,
  `WriteJmp` and `Execute`.
- `Wrappers`: `Option` and `Result`.

Many things are inputs to the model:

- the assembly held in the tool file;
- the parser, as a function from the options type and the tool arguments to
  TryParse's three results;
- the placeholder's entry address;
- the tool's entry address, found with reflection;
- the pointer width;
- the environment-variable keys;
- the assembly's product, version and copyright strings.

Behaviour of the code that the model keeps as it is:

- The 64-bit stub the code writes is 12 bytes long: `48 B8 imm64 FF E0`.
  That is the 10-byte `MOV RAX, imm64` followed by the 2-byte `JMP RAX`.
- After patching, the placeholder keeps its own entry address, which differs
  from the target. So a second `Execute` in the same process would write the
  same stub again rather than skip the patch. `Machine.OverwrittenIdempotent`
  shows that this second write leaves memory exactly as the first one did.
- The code ignores the result of `VirtualProtect`. The model's
  `VirtualProtect` always succeeds, so the failing case is not modelled. In
  that case the range stays non-writable and the copy at line 162 would
  fault.
- `Write` restores the whole range to the protection `VirtualProtect`
  reported. That is the protection of the range's first byte. So the old
  protection comes back in full only when the range had a single protection
  before, which is what `Loader.WriteRestoresUniformProtection` states.
- Line 157 of `Loader.CLR.cs` reassigns a parameter and has no effect, so
  the model does not include it.

## Model

| member | source | states |
|---|---|---|
| `Bytes.LittleEndianRoundTrip` | Tool.Loader/Loader.CLR.cs:146 | reading back n stored little-endian bytes gives the stored value modulo 256^n |
| `Bytes.FromLittleEndianRoundTrip` | Tool.Loader/Loader.CLR.cs:154 | storing the value some bytes denote writes those same bytes |
| `Text.EqualsIgnoreCaseTransitive` | Tool.Loader/Loader.CLR.cs:112 | ordinal ignore-case equality is symmetric and transitive |
| `Text.IndexOf` | Tool.Loader/Loader.CLR.cs:88 | the result is -1 exactly when the character is absent; otherwise it is a position holding the character with no earlier occurrence |
| `Text.LastIndexOfAny` | Tool.Loader/Loader.CLR.cs:111 | the result is -1 or a position holding one of the characters, and no later position holds one |
| `Text.FileName` | Tool.Loader/Loader.CLR.cs:111 | the result is a suffix of the path with no separator, and a separator comes just before it |
| `Text.FileNameWithoutExtension` | Tool.Loader/Loader.CLR.cs:111 | the result is a prefix of the file name: the whole name when it has no '.', otherwise the part before its last '.' |
| `Machine.Overwritten` | Tool.Loader/Loader.CLR.cs:162 | positions in the written range hold the new bytes; every other position is unchanged; the length is kept |
| `Machine.OverwrittenIdempotent` | Tool.Loader/Loader.CLR.cs:67-68 | writing the same stub over the placeholder twice has the same effect as writing it once |
| `Machine.Memory.VirtualProtect` | Tool.Loader/Loader.CLR.cs:161 | the range gets the new protection, nothing else changes, and the first byte's previous protection is returned |
| `Machine.Memory.Copy` | Tool.Loader/Loader.CLR.cs:162 | requires the destination range to be writable; memory then holds the source from the address on and is unchanged elsewhere |
| `Machine.StoreLittleEndian` | Tool.Loader/Loader.CLR.cs:146 | the pointer store writes the integer's little-endian bytes at the offset and changes nothing else |
| `JumpStub.ToInt32` | Tool.Loader/Loader.CLR.cs:146 | an unchecked int conversion lies in the signed 32-bit range and is congruent to its argument modulo 2^32 |
| `JumpStub.Displacement32Congruent` | Tool.Loader/Loader.CLR.cs:146 | `(int)target - (int)address - 5` in wrapping arithmetic fits in 32 signed bits and is congruent to target - address - 5 modulo 2^32 |
| `JumpStub.Stub` | Tool.Loader/Loader.CLR.cs:141-155 | the stub is 5 bytes on a 32-bit process and 12 bytes on a 64-bit one |
| `JumpStub.JmpRel32Layout` | Tool.Loader/Loader.CLR.cs:142-146 | the 32-bit stub has length 5 and byte 0 is E9; bytes 1..4 read little-endian give (target - address - 5) mod 2^32 |
| `JumpStub.MovRaxJmpRaxLayout` | Tool.Loader/Loader.CLR.cs:149-154 | the 64-bit stub has length 12; bytes 0-1 are 48 B8 and bytes 10-11 are FF E0; bytes 2..9 read little-endian give the target |
| `JumpStub.JmpRel32JumpsToTarget` | Tool.Loader/Loader.CLR.cs:142-146 | after the 32-bit stub is written at address, end of instruction plus sign-extended displacement, mod 2^32, is the target |
| `JumpStub.JumpLandsOnTarget` | Tool.Loader/Loader.CLR.cs:146 | the end of the 5-byte jump plus the wrapped displacement is the target, modulo 2^32 |
| `JumpStub.MovRaxJmpRaxJumpsToTarget` | Tool.Loader/Loader.CLR.cs:149-154 | after the 64-bit stub is written at address, the code there jumps to the target |
| `JumpStub.StubJumpsToTarget` | Tool.Loader/Loader.CLR.cs:139-156 | for either pointer width, memory patched with the stub jumps from the address to any target the width can hold |
| `Runtime.AppDomain.LoadFrom` | Tool.Loader/Loader.CLR.cs:113 | loading appends the file's assembly to the domain's loaded assemblies |
| `Loader.FirstNamed` | Tool.Loader/Loader.CLR.cs:112 | the result is the first assembly whose name equals the given name ignoring case, or none when no assembly's does |
| `Loader.GetOrLoadAssembly` | Tool.Loader/Loader.CLR.cs:110-114 | the result and the domain's new assemblies are those of `Resolve` on the old assemblies |
| `Loader.ResolveReusesFirstMatch` | Tool.Loader/Loader.CLR.cs:111-113 | when a loaded assembly matches the file name ignoring case, the first match is returned and nothing is loaded |
| `Loader.ResolveLoadsOnlyWhenUnmatched` | Tool.Loader/Loader.CLR.cs:112-113 | the domain grows, by the file's assembly, exactly when nothing matches and the file loads; a load error happens exactly when nothing matches and the file does not load |
| `Loader.FirstNamedEquivalentNames` | Tool.Loader/Loader.CLR.cs:112 | names equal ignoring case find the same first assembly |
| `Loader.ResolveRepeated` | Tool.Loader/Loader.CLR.cs:110-114 | a second lookup for the same logical name returns the first call's assembly and loads nothing, once the loaded assembly is registered under that name |
| `Loader.FindOptionsTypeIsFirst` | Tool.Loader/Loader.CLR.cs:119-125 | the options type is the sole generic argument of the type's first ITool<> interface |
| `Loader.FindOptionsTypeNone` | Tool.Loader/Loader.CLR.cs:119-124 | no options type is found exactly when no interface is a one-argument ITool<> |
| `Loader.FindToolIsFirstMatch` | Tool.Loader/Loader.CLR.cs:118-126 | the tool found is the first type in scan order with an ITool<> interface, paired with that interface's argument |
| `Loader.FindToolNone` | Tool.Loader/Loader.CLR.cs:118-129 | no tool is found exactly when no type implements ITool<> |
| `Loader.FindToolUnique` | Tool.Loader/Loader.CLR.cs:118-126 | a module with exactly one tool type yields that type and its declared options type |
| `Loader.CreateToolInstance` | Tool.Loader/Loader.CLR.cs:116-130 | the nested scan returns the first match `FindTool` describes, or fails with "Tool type not found" |
| `Loader.HasEnv` | Tool.Loader/Loader.CLR.cs:174-182 | true exactly when some string key equals the name ignoring case |
| `Loader.IsN00bUser` | Tool.Loader/Loader.CLR.cs:166-172 | true exactly when these hold: no VisualStudioDir, no SHELL, windir present, no PROMPT |
| `Loader.GetTitle` | Tool.Loader/Loader.CLR.cs:84-91 | fails exactly when the copyright text is shorter than 12 characters (`CopyrightTooShort`) or has no blank after them (`NoBlankInCopyright`) |
| `Loader.GetTitleParts` | Tool.Loader/Loader.CLR.cs:87-91 | for copyright text "<12 chars><year> <owner>" with no blank in the year, the title is "<product> v<version> by <owner> <year>" |
| `Loader.Write` | Tool.Loader/Loader.CLR.cs:160-164 | memory in [address, address+len) equals the value, every other byte is unchanged, and the range gets back the first byte's earlier protection |
| `Loader.WriteRestoresUniformProtection` | Tool.Loader/Loader.CLR.cs:161-163 | a range with one protection before the write has exactly that protection afterwards |
| `Loader.WriteJmp` | Tool.Loader/Loader.CLR.cs:139-158 | memory at the address holds the stub for the pointer width and is unchanged elsewhere; the code there then jumps to the target |
| `Loader.ToolArguments` | Tool.Loader/Loader.CLR.cs:56-58 | the tool arguments are a new array of length args.Length - 1, and element i is args[i+1] |
| `Loader.ExpectedRunDispatches` | Tool.Loader/Loader.CLR.cs:45-60 | once the tool is found, the run depends only on the parse of the arguments after the tool path |
| `Loader.DispatchRouting` | Tool.Loader/Loader.CLR.cs:59-73 | usage is shown exactly when TryParse fails or requests usage; the stub is called, with the options unchanged, only otherwise |
| `Loader.ExecuteUnloadable` | Tool.Loader/Loader.CLR.cs:45-46 | an unmatched path whose file does not load fails with a load error before discovery, parsing or patching |
| `Loader.CallOrShowUsage` | Tool.Loader/Loader.CLR.cs:59-73 | the run is the dispatch on the parse result; memory is patched only when the stub is called and its address differs from the target; otherwise memory and protection are unchanged |
| `Loader.Execute` | Tool.Loader/Loader.CLR.cs:30-73 | the run is the expected one; memory is patched only when the stub is called and its address differs from the target; otherwise memory and protection are unchanged |

## Left out

- The interactive prompt for an empty argument list is not modelled. Its
  console I/O is in `Loader.CLR.cs:30-44`, and it uses `CommandLineToArgv`
  and `LocalFree` through P/Invoke. `Execute` ends such a run with
  `PromptForCommandLine`.
- Setting the console window title is not modelled: the try/catch blocks at
  lines 25-29 and 48-55, and the tool's `Title` property. `GetTitle` itself
  is modelled.
- The key-press pause before exit is not modelled. It is console I/O and
  depends on `Debugger.IsAttached` (lines 74-81). `IsN00bUser` is modelled
  on its own.
- Reflection is not modelled: `GetMethod`, `MakeGenericMethod`,
  `PrepareMethod`, `GetFunctionPointer`, `Activator.CreateInstance` and
  `GetCustomAttributes`. Their results are inputs. `Activator.CreateInstance`
  failing, for example on a tool type with no parameterless constructor, is
  not modelled.
- The external `CommandLine.TryParse` and `ShowUsage` are inputs. The model
  records that usage is shown but not what is printed.
- Calling the patched stub, and the claim that this behaves like calling the
  tool's `Execute`, are not modelled. Stating them would need an execution
  semantics of x86 code. The model stops at the jump target
  (`JumpStub.JumpTarget`).
- Machine.Memory.VirtualProtect: always succeeds, so a failing protection
  change (whose result the code ignores) is not modelled.
- Machine.Memory.VirtualProtect: protection is per byte, not per page. It
  requires the address to lie inside the modelled memory window, even for an
  empty range.
- Execute: requires the placeholder's code, as long as the stub, to lie
  inside the modelled memory window. The runtime guarantees this for the real
  placeholder.
- Text.UpperAscii: case folding covers ASCII letters only. The full Unicode
  upper-casing of ordinal ignore-case comparison is not modelled.
- Text: a Dafny `char` is a Unicode scalar value, whereas a .NET string
  counts UTF-16 code units. A character outside the Basic Multilingual Plane
  is one position in the model but two in the code. So `Substring(12)`,
  `IndexOf` and the length test in `GetTitle` can differ on such text.
- Runtime.AppDomain.LoadFrom: always appends the file's assembly. The real
  `Assembly.LoadFrom` returns an already-loaded assembly with the same
  identity, such as a renamed copy of one, and adds nothing; that case is not
  modelled.
- Text.FileName: only `\` and `/` count as separators. A drive-relative path
  such as `C:tool.dll` is not split at its volume separator.
- GetTitle: the product, version and copyright strings are inputs. A missing
  attribute, which throws at `[0]`, is not modelled.
- `TestTool/Tool.cs`, the sample plugin, is not part of this model. It
  consists of logging, a background thread and sleeping.
