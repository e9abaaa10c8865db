/** What the loader learns from the .NET runtime through reflection, reduced
    to plain values: types, the interfaces they implement, assemblies, and the
    application domain's list of loaded assemblies. */
module Runtime {

  /** The identity of a runtime type. */
  datatype TypeRef = TypeRef(fullName: string)

  /** An interface a type implements: whether it is a constructed generic
      type, its generic type definition and its generic type arguments. */
  datatype InterfaceRef = InterfaceRef(isGenericType: bool, genericDefinition: TypeRef,
                                       genericArguments: seq<TypeRef>)

  /** A type of an assembly's manifest module with its interfaces, in the
      order Type.GetInterfaces reports them. */
  datatype TypeInfo = TypeInfo(self: TypeRef, interfaces: seq<InterfaceRef>)

  /** A loaded assembly: its simple name and the types of its manifest module,
      in the order Module.GetTypes reports them. */
  datatype Assembly = Assembly(name: string, types: seq<TypeInfo>)

  /** The open generic capability interface Tool.Interface.ITool<>. */
  const ToolDefinition := TypeRef("Tool.Interface.ITool`1")

  /** The current application domain: the assemblies loaded so far, in the
      order AppDomain.GetAssemblies reports them. */
  class AppDomain {
    var assemblies: seq<Assembly>

    constructor (loaded: seq<Assembly>)
      ensures assemblies == loaded
    {
      assemblies := loaded;
    }

    /** Assembly.LoadFrom of a file that holds the assembly a: it joins the
        domain's loaded assemblies. */
    method LoadFrom(a: Assembly)
      modifies this
      ensures assemblies == old(assemblies) + [a]
    {
      assemblies := assemblies + [a];
    }
  }
}
