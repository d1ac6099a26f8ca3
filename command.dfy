/**
 * BaseCommand of command/base.go as far as its flag groups go: the FlagSetBit mask,
 * the groups and flags each bit asks for, and flagSet's build-once cache.
 */
module Command {
  import opened Wrappers
  import Flags
  import FlagGroups
  import Text

  /** FlagSetBit is a Go `uint`, at least 32 bits wide; only bits 0-3 are used, so the width changes nothing. */
  type FlagSetBit = bv64

  const FlagSetNone: FlagSetBit := 1
  const FlagSetHTTP: FlagSetBit := 2
  const FlagSetOutputField: FlagSetBit := 4
  const FlagSetOutputFormat: FlagSetBit := 8

  const HttpTitle := "HTTP Options"
  const OutputTitle := "Output Options"

  /**
   * The example text a flag value's type offers for `  -name=<example>` ("" for none);
   * the value types live outside command/base.go.
   */
  type ExampleOf = Flags.FlagValue -> string

  function MakeFlag(name: string, default: Flags.FlagValue, envVar: string, usage: string, example: ExampleOf): Flags.Flag {
    Flags.Flag(name, default, envVar, usage, example(default))
  }

  /** Usage texts, as the flags register them. */
  const AddressUsage := "Address of the Vault server."
  const CACertUsage := "Path on the local disk to a single PEM-encoded CA certificate to verify the Vault server's SSL certificate. This takes precendence over -ca-path."
  const CAPathUsage := "Path on the local disk to a directory of PEM-encoded CA certificates to verify the Vault server's SSL certificate."
  const ClientCertUsage := "Path on the local disk to a single PEM-encoded CA certificate to use for TLS authentication to the Vault server. If this flag is specified, -client-key is also required."
  const ClientKeyUsage := "Path on the local disk to a single PEM-encoded private key matching the client certificate from -client-cert."
  const TLSServerNameUsage := "Name to use as the SNI host when connecting to the Vault server via TLS."
  const TLSSkipVerifyUsage := "Disable verification of TLS certificates. Using this option is highly discouraged and decreases the security of data transmissions to and from the Vault server."
  const WrapTTLUsage := "Wraps the response in a cubbyhole token with the requested TTL. The response is available via the \"vault unwrap\" command. The TTL is specified as a numeric string with suffix like \"30s\" or \"5m\""
  const FieldUsage := "Print only the field with the given name. Specifying this option will take precedence over other formatting directives. The result will not have a trailing newline making it idea for piping to other processes."
  const FormatUsage := "Print the output in the given format. Valid formats are \"table\", \"json\", or \"yaml\"."

  function AddressFlag(example: ExampleOf): Flags.Flag {
    MakeFlag("address", Flags.StringValue("https://127.0.0.1:8200"), "VAULT_ADDR", AddressUsage, example)
  }

  function CACertFlag(example: ExampleOf): Flags.Flag {
    MakeFlag("ca-cert", Flags.StringValue(""), "VAULT_CACERT", CACertUsage, example)
  }

  function CAPathFlag(example: ExampleOf): Flags.Flag {
    MakeFlag("ca-path", Flags.StringValue(""), "VAULT_CAPATH", CAPathUsage, example)
  }

  function ClientCertFlag(example: ExampleOf): Flags.Flag {
    MakeFlag("client-cert", Flags.StringValue(""), "VAULT_CLIENT_CERT", ClientCertUsage, example)
  }

  function ClientKeyFlag(example: ExampleOf): Flags.Flag {
    MakeFlag("client-key", Flags.StringValue(""), "VAULT_CLIENT_KEY", ClientKeyUsage, example)
  }

  function TLSServerNameFlag(example: ExampleOf): Flags.Flag {
    MakeFlag("tls-server-name", Flags.StringValue(""), "VAULT_TLS_SERVER_NAME", TLSServerNameUsage, example)
  }

  function TLSSkipVerifyFlag(example: ExampleOf): Flags.Flag {
    MakeFlag("tls-skip-verify", Flags.BoolValue(false), "VAULT_SKIP_VERIFY", TLSSkipVerifyUsage, example)
  }

  function WrapTTLFlag(example: ExampleOf): Flags.Flag {
    MakeFlag("wrap-ttl", Flags.DurationValue(0), "VAULT_WRAP_TTL", WrapTTLUsage, example)
  }

  function FieldFlag(example: ExampleOf): Flags.Flag {
    MakeFlag("field", Flags.StringValue(""), "", FieldUsage, example)
  }

  function FormatFlag(example: ExampleOf): Flags.Flag {
    MakeFlag("format", Flags.StringValue("table"), "VAULT_FORMAT", FormatUsage, example)
  }

  /** The flags of "HTTP Options", in registration order. */
  function HttpFlags(example: ExampleOf): seq<Flags.Flag> {
    [AddressFlag(example), CACertFlag(example), CAPathFlag(example), ClientCertFlag(example),
     ClientKeyFlag(example), TLSServerNameFlag(example), TLSSkipVerifyFlag(example), WrapTTLFlag(example)]
  }

  predicate HasBit(bit: FlagSetBit, b: FlagSetBit) {
    bit & b != 0
  }

  /** The flags of "Output Options" for a mask, in registration order. */
  function OutputFlags(bit: FlagSetBit, example: ExampleOf): seq<Flags.Flag> {
    (if HasBit(bit, FlagSetOutputField) then [FieldFlag(example)] else [])
    + (if HasBit(bit, FlagSetOutputFormat) then [FormatFlag(example)] else [])
  }

  /** The groups flagSet registers for a mask, in order. */
  function Layout(bit: FlagSetBit, example: ExampleOf): seq<Flags.Group> {
    (if HasBit(bit, FlagSetHTTP) then [Flags.Group(HttpTitle, HttpFlags(example))] else [])
    + (if HasBit(bit, FlagSetOutputField | FlagSetOutputFormat) then [Flags.Group(OutputTitle, OutputFlags(bit, example))] else [])
  }

  /** Some group of `gs` has this name. */
  predicate HasGroup(gs: seq<Flags.Group>, name: string) {
    exists i :: 0 <= i < |gs| && gs[i].name == name
  }

  /** Some group of `gs` called `group` holds a flag called `flag`. */
  predicate HasFlag(gs: seq<Flags.Group>, group: string, flag: string) {
    exists i, k :: 0 <= i < |gs| && gs[i].name == group && 0 <= k < |gs[i].flags| && gs[i].flags[k].name == flag
  }

  /** "HTTP Options" is built exactly when the HTTP bit is set. */
  lemma HttpGroupIff(bit: FlagSetBit, example: ExampleOf)
    ensures HasGroup(Layout(bit, example), HttpTitle) <==> HasBit(bit, FlagSetHTTP)
  {
    var gs := Layout(bit, example);
    if HasBit(bit, FlagSetHTTP) {
      assert gs[0].name == HttpTitle;
    }
  }

  /** "Output Options" is built exactly when the field bit or the format bit is set. */
  lemma OutputGroupIff(bit: FlagSetBit, example: ExampleOf)
    ensures HasGroup(Layout(bit, example), OutputTitle) <==> HasBit(bit, FlagSetOutputField) || HasBit(bit, FlagSetOutputFormat)
  {
    var gs := Layout(bit, example);
    assert HasBit(bit, FlagSetOutputField | FlagSetOutputFormat) <==> HasBit(bit, FlagSetOutputField) || HasBit(bit, FlagSetOutputFormat);
    if HasBit(bit, FlagSetOutputField | FlagSetOutputFormat) {
      assert gs[|gs| - 1].name == OutputTitle;
    }
  }

  /** "Output Options" holds -field exactly when the field bit is set, and -format exactly when the format bit is. */
  lemma OutputFlagsIff(bit: FlagSetBit, example: ExampleOf)
    ensures HasFlag(Layout(bit, example), OutputTitle, "field") <==> HasBit(bit, FlagSetOutputField)
    ensures HasFlag(Layout(bit, example), OutputTitle, "format") <==> HasBit(bit, FlagSetOutputFormat)
  {
    var gs := Layout(bit, example);
    var out := OutputFlags(bit, example);
    assert HasBit(bit, FlagSetOutputField | FlagSetOutputFormat) <==> HasBit(bit, FlagSetOutputField) || HasBit(bit, FlagSetOutputFormat);
    if HasBit(bit, FlagSetOutputField | FlagSetOutputFormat) {
      var last := |gs| - 1;
      assert gs[last] == Flags.Group(OutputTitle, out);
      if HasBit(bit, FlagSetOutputField) {
        assert gs[last].flags[0].name == "field";
      }
      if HasBit(bit, FlagSetOutputFormat) {
        assert gs[last].flags[|out| - 1].name == "format";
      }
    }
  }

  /** With both kinds of bits set, "HTTP Options" comes first and "Output Options" second; FlagSetNone alone builds nothing. */
  lemma LayoutOrder(bit: FlagSetBit, example: ExampleOf)
    ensures HasBit(bit, FlagSetHTTP) && (HasBit(bit, FlagSetOutputField) || HasBit(bit, FlagSetOutputFormat)) ==>
      |Layout(bit, example)| == 2 && Layout(bit, example)[0].name == HttpTitle && Layout(bit, example)[1].name == OutputTitle
    ensures Layout(FlagSetNone, example) == []
  {
    assert HasBit(bit, FlagSetOutputField | FlagSetOutputFormat) <==> HasBit(bit, FlagSetOutputField) || HasBit(bit, FlagSetOutputFormat);
  }

  /** The defaults: address https://127.0.0.1:8200, tls-skip-verify false, wrap-ttl 0, format "table", the other strings empty. */
  lemma Defaults(bit: FlagSetBit, example: ExampleOf)
    ensures HasBit(bit, FlagSetHTTP) ==>
      && Layout(bit, example)[0] == Flags.Group(HttpTitle, HttpFlags(example))
      && |HttpFlags(example)| == 8
      && (forall k :: 0 <= k < 8 ==> HttpFlags(example)[k].name == HttpNames[k])
      && HttpFlags(example)[0].default == Flags.StringValue("https://127.0.0.1:8200")
      && (forall k :: 1 <= k < 6 ==> HttpFlags(example)[k].default == Flags.StringValue(""))
      && HttpFlags(example)[6].default == Flags.BoolValue(false)
      && HttpFlags(example)[7].default == Flags.DurationValue(0)
    ensures FieldFlag(example).default == Flags.StringValue("") && FormatFlag(example).default == Flags.StringValue("table")
  {
  }

  /** The names of the HTTP flags, in registration order. */
  const HttpNames: seq<string> := ["address", "ca-cert", "ca-path", "client-cert", "client-key", "tls-server-name", "tls-skip-verify", "wrap-ttl"]

  lemma HttpNamesAscending()
    ensures forall i :: 0 <= i < |HttpNames| - 1 ==> Text.Less(HttpNames[i], HttpNames[i + 1])
  {
    forall i | 0 <= i < |HttpNames| - 1 ensures Text.Less(HttpNames[i], HttpNames[i + 1]) {
      if i == 0 {
        Text.LessAt("address", "ca-cert", 0);
      } else if i == 1 {
        Text.LessAt("ca-cert", "ca-path", 3);
      } else if i == 2 {
        Text.LessAt("ca-path", "client-cert", 1);
      } else if i == 3 {
        Text.LessAt("client-cert", "client-key", 7);
      } else if i == 4 {
        Text.LessAt("client-key", "tls-server-name", 0);
      } else if i == 5 {
        Text.LessAt("tls-server-name", "tls-skip-verify", 5);
      } else {
        Text.LessAt("tls-skip-verify", "wrap-ttl", 0);
      }
    }
  }

  lemma HttpNamesIncrease(example: ExampleOf)
    ensures forall i :: 0 <= i < |HttpFlags(example)| - 1 ==> Text.Less(HttpFlags(example)[i].name, HttpFlags(example)[i + 1].name)
  {
    HttpNamesAscending();
    var fs := HttpFlags(example);
    assert |fs| == |HttpNames| && forall k :: 0 <= k < |fs| ==> fs[k].name == HttpNames[k];
  }

  lemma OutputNamesIncrease(bit: FlagSetBit, example: ExampleOf)
    ensures forall i :: 0 <= i < |OutputFlags(bit, example)| - 1 ==> Text.Less(OutputFlags(bit, example)[i].name, OutputFlags(bit, example)[i + 1].name)
  {
    Text.LessAt("field", "format", 1);
  }

  lemma HttpVisitOrder(example: ExampleOf)
    ensures Flags.SortByName(HttpFlags(example)) == HttpFlags(example)
  {
    HttpNamesIncrease(example);
    Flags.SortByNameKeepsSorted(HttpFlags(example));
  }

  lemma OutputVisitOrder(bit: FlagSetBit, example: ExampleOf)
    ensures Flags.SortByName(OutputFlags(bit, example)) == OutputFlags(bit, example)
  {
    OutputNamesIncrease(bit, example);
    Flags.SortByNameKeepsSorted(OutputFlags(bit, example));
  }

  /** Every group flagSet builds holds either the HTTP flags or the output flags. */
  lemma LayoutFlags(bit: FlagSetBit, example: ExampleOf)
    ensures forall i :: 0 <= i < |Layout(bit, example)| ==>
      Layout(bit, example)[i].flags == HttpFlags(example) || Layout(bit, example)[i].flags == OutputFlags(bit, example)
  {
  }

  /**
   * The flags of every group flagSet builds are registered in name order, so VisitAll,
   * and with it Help, lists them in registration order.
   */
  lemma LayoutVisitOrder(bit: FlagSetBit, example: ExampleOf)
    ensures forall i :: 0 <= i < |Layout(bit, example)| ==> Flags.SortByName(Layout(bit, example)[i].flags) == Layout(bit, example)[i].flags
  {
    var gs := Layout(bit, example);
    var hf, of := HttpFlags(example), OutputFlags(bit, example);
    LayoutFlags(bit, example);
    HttpVisitOrder(example);
    OutputVisitOrder(bit, example);
    forall i | 0 <= i < |gs| ensures Flags.SortByName(gs[i].flags) == gs[i].flags {
      assert gs[i].flags == hf || gs[i].flags == of;
    }
  }

  /** The command's cached flag groups; `flags` stands for the `flags` pointer and its once-gate together. */
  class BaseCommand {
    var flags: Option<FlagGroups.FlagSets>

    constructor ()
      ensures flags == None
    {
      flags := None;
    }

    /**
     * flagSet: the first call builds the groups `bit` asks for and keeps them; every
     * later call returns those same groups, whatever mask it is given.
     */
    method FlagSet(bit: FlagSetBit, example: ExampleOf) returns (fs: FlagGroups.FlagSets)
      modifies this
      ensures old(flags).Some? ==> flags == old(flags) && fs == old(flags).value
      ensures old(flags).None? ==> fresh(fs) && flags == Some(fs) && fs.hiddens == {}
      ensures old(flags).None? ==> fs.Groups() == Layout(bit, example)
    {
      if flags.None? {
        var sets := BuildFlagSets(bit, example);
        flags := Some(sets);
      }
      fs := flags.value;
    }
  }

  /** The body of flagSet's once-gate: fresh groups laid out as the mask asks, nothing hidden. */
  method BuildFlagSets(bit: FlagSetBit, example: ExampleOf) returns (sets: FlagGroups.FlagSets)
    ensures fresh(sets) && sets.hiddens == {}
    ensures sets.Groups() == Layout(bit, example)
  {
    sets := new FlagGroups.FlagSets();
    if HasBit(bit, FlagSetHTTP) {
      AddHttpGroup(sets, example);
    }
    if HasBit(bit, FlagSetOutputField | FlagSetOutputFormat) {
      AddOutputGroup(sets, bit, example);
    }
  }

  /** Appends "HTTP Options" with its eight flags. */
  method AddHttpGroup(sets: FlagGroups.FlagSets, example: ExampleOf)
    modifies sets
    ensures sets.hiddens == old(sets.hiddens)
    ensures sets.Groups() == old(sets.Groups()) + [Flags.Group(HttpTitle, HttpFlags(example))]
  {
    var f := sets.NewFlagSet(HttpTitle);
    DefineHttpFlags(f, example);
  }

  /** Appends "Output Options" with the output flags the mask asks for. */
  method AddOutputGroup(sets: FlagGroups.FlagSets, bit: FlagSetBit, example: ExampleOf)
    modifies sets
    ensures sets.hiddens == old(sets.hiddens)
    ensures sets.Groups() == old(sets.Groups()) + [Flags.Group(OutputTitle, OutputFlags(bit, example))]
  {
    var f := sets.NewFlagSet(OutputTitle);
    DefineOutputFlags(f, bit, example);
  }

  /** The HTTP half of flagSet's build: the eight connection flags, in order. */
  method DefineHttpFlags(f: FlagGroups.FlagSet, example: ExampleOf)
    requires f.flags == []
    modifies f
    ensures f.flags == HttpFlags(example)
  {
    f.Define(AddressFlag(example));
    f.Define(CACertFlag(example));
    f.Define(CAPathFlag(example));
    f.Define(ClientCertFlag(example));
    f.Define(ClientKeyFlag(example));
    f.Define(TLSServerNameFlag(example));
    f.Define(TLSSkipVerifyFlag(example));
    f.Define(WrapTTLFlag(example));
  }

  /** The output half of flagSet's build: field and format, each when its bit is set. */
  method DefineOutputFlags(f: FlagGroups.FlagSet, bit: FlagSetBit, example: ExampleOf)
    requires f.flags == []
    modifies f
    ensures f.flags == OutputFlags(bit, example)
  {
    if HasBit(bit, FlagSetOutputField) {
      f.Define(FieldFlag(example));
    }
    if HasBit(bit, FlagSetOutputFormat) {
      f.Define(FormatFlag(example));
    }
  }
}
