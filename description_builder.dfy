/** DescriptionBuilder, in carbon-api and, identically apart from nullability
    annotations, in 1.x: five fields with setters that return the builder, and
    a built Description that reads the builder's fields whenever it is asked. */
module DescriptionBuilders {
  import opened Lang
  import Intake

  /** The builder's five fields at one moment; a parameter is an Intake
      Parameter object. */
  datatype Fields = Fields(
    parameters: seq<Obj>, shortDescription: string, help: string, usage: string, permissions: seq<string>)

  class DescriptionBuilder {
    var parameters: seq<Obj>
    var shortDescription: string
    var help: string
    var usage: string
    var permissions: seq<string>

    function Current(): Fields
      reads this
    {
      Fields(parameters, shortDescription, help, usage, permissions)
    }

    /** Every field starts empty. */
    constructor ()
      ensures Current() == Fields([], "", "", "", [])
    {
      parameters := [];
      shortDescription := "";
      help := "";
      usage := "";
      permissions := [];
    }

    method Parameters(parameters: seq<Obj>) returns (b: DescriptionBuilder)
      modifies this
      ensures b == this
      ensures Current() == old(Current()).(parameters := parameters)
    {
      this.parameters := parameters;
      b := this;
    }

    method ShortDescription(shortDescription: string) returns (b: DescriptionBuilder)
      modifies this
      ensures b == this
      ensures Current() == old(Current()).(shortDescription := shortDescription)
    {
      this.shortDescription := shortDescription;
      b := this;
    }

    method Help(help: string) returns (b: DescriptionBuilder)
      modifies this
      ensures b == this
      ensures Current() == old(Current()).(help := help)
    {
      this.help := help;
      b := this;
    }

    method Usage(usage: string) returns (b: DescriptionBuilder)
      modifies this
      ensures b == this
      ensures Current() == old(Current()).(usage := usage)
    {
      this.usage := usage;
      b := this;
    }

    method Permissions(permissions: seq<string>) returns (b: DescriptionBuilder)
      modifies this
      ensures b == this
      ensures Current() == old(Current()).(permissions := permissions)
    {
      this.permissions := permissions;
      b := this;
    }

    /** build(): a new description over this builder, not a copy of it. */
    method Build() returns (d: BuiltDescription)
      ensures fresh(d) && d.builder == this
      ensures d.Current() == Current()
    {
      d := new BuiltDescription(this);
    }
  }

  /** The anonymous Description build() returns: each getter reads the
      builder's field when it is called. */
  class BuiltDescription {
    const builder: DescriptionBuilder

    constructor (builder: DescriptionBuilder)
      ensures this.builder == builder
    {
      this.builder := builder;
    }

    function GetParameters(): seq<Obj>
      reads builder
    {
      builder.parameters
    }

    function GetShortDescription(): string
      reads builder
    {
      builder.shortDescription
    }

    function GetHelp(): string
      reads builder
    {
      builder.help
    }

    function GetUsage(): string
      reads builder
    {
      builder.usage
    }

    function GetPermissions(): seq<string>
      reads builder
    {
      builder.permissions
    }

    /** What the getters return, all at once. */
    function Current(): (f: Fields)
      reads builder
      ensures f == builder.Current()
    {
      Fields(GetParameters(), GetShortDescription(), GetHelp(), GetUsage(), GetPermissions())
    }

    /** The help and usage the command bridge reads from a command's description. */
    function AsCommandDescription(): (d: Intake.Description)
      reads builder
      ensures d.help == GetHelp() && d.usage == GetUsage()
    {
      Intake.Description(GetHelp(), GetUsage())
    }
  }

  /** A setter called after build() is seen through the description already
      built, and the other getters keep their values. */
  method HelpAfterBuild(builder: DescriptionBuilder, help: string) returns (d: BuiltDescription)
    modifies builder
    ensures fresh(d) && d.builder == builder
    ensures d.GetHelp() == help
    ensures d.Current() == old(builder.Current()).(help := help)
  {
    d := builder.Build();
    var same := builder.Help(help);
  }

  /** new DescriptionBuilder().help(h).usage(u).build(), the way the commands
      declare their descriptions. */
  method HelpAndUsage(help: string, usage: string) returns (d: BuiltDescription)
    ensures fresh(d) && fresh(d.builder)
    ensures d.Current() == Fields([], "", help, usage, [])
    ensures d.AsCommandDescription() == Intake.Description(help, usage)
  {
    var builder := new DescriptionBuilder();
    builder := builder.Help(help);
    builder := builder.Usage(usage);
    d := builder.Build();
  }
}
