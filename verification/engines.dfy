/** The table from file extension to the template package that renders it. A `false` entry marks an
    engine the library knows of but does not configure; a `true` entry marks a file to render as is. */
module Engines {

  /** A table value: a package name, or a switch. */
  datatype TableValue = Package(name: string) | Flag(on: bool)

  /** JavaScript truthiness of a table value. */
  predicate Truthy(v: TableValue) {
    match v
    case Package(s) => s != ""
    case Flag(b) => b
  }

  /** The value as it appears inside a template literal. */
  function ValueText(v: TableValue): string {
    match v
    case Package(s) => s
    case Flag(b) => if b then "true" else "false"
  }

  const Table: map<string, TableValue> := map[
    "pug" := Package("pug"),
    "jade" := Package("pug"),
    "hbs" := Package("handlebars"),
    "ejs" := Package("ejs"),
    "vue" := Flag(false),
    "underscore" := Flag(false),
    "nunjucks" := Flag(false),
    "react" := Flag(false),
    "marko" := Flag(false),
    "template7" := Flag(false),
    "twigjs" := Flag(false),
    "dust" := Flag(false),
    "hogan" := Flag(false),
    "swig" := Flag(false),
    "hyperscript" := Flag(false),
    "vash" := Flag(false),
    "jsrender" := Flag(false),
    "emblem" := Flag(false),
    "closure" := Flag(false),
    "json2html" := Flag(false),
    "mustache" := Flag(false),
    "scss" := Package("sass-css-stream"),
    "sass" := Package("sass-css-stream"),
    "html" := Flag(true),
    "css" := Flag(true),
    "js" := Flag(true)
  ]

  /** The engines listed but switched off. */
  const Unconfigured: set<string> := {
    "vue", "underscore", "nunjucks", "react", "marko", "template7", "twigjs", "dust", "hogan",
    "swig", "hyperscript", "vash", "jsrender", "emblem", "closure", "json2html", "mustache"
  }

  /** The extensions rendered as is. */
  const Verbatim: set<string> := {"html", "css", "js"}

  /** The extensions that name a package. */
  const Packaged: set<string> := {"pug", "jade", "hbs", "ejs", "scss", "sass"}

  lemma UnconfiguredAreOff()
    ensures forall e :: e in Unconfigured ==> e in Table && Table[e] == Flag(false)
  {
    assert Table["vue"] == Flag(false);
    assert Table["underscore"] == Flag(false);
    assert Table["nunjucks"] == Flag(false);
    assert Table["react"] == Flag(false);
    assert Table["marko"] == Flag(false);
    assert Table["template7"] == Flag(false);
    assert Table["twigjs"] == Flag(false);
    assert Table["dust"] == Flag(false);
    assert Table["hogan"] == Flag(false);
    assert Table["swig"] == Flag(false);
    assert Table["hyperscript"] == Flag(false);
    assert Table["vash"] == Flag(false);
    assert Table["jsrender"] == Flag(false);
    assert Table["emblem"] == Flag(false);
    assert Table["closure"] == Flag(false);
    assert Table["json2html"] == Flag(false);
    assert Table["mustache"] == Flag(false);
  }

  lemma VerbatimAreOn()
    ensures forall e :: e in Verbatim ==> e in Table && Table[e] == Flag(true)
  {
  }

  lemma PackagedArePackages()
    ensures forall e :: e in Packaged ==> e in Table && Table[e].Package? && Truthy(Table[e])
  {
  }

  lemma TableKeys()
    ensures Table.Keys == Packaged + Unconfigured + Verbatim
  {
  }

  /** An entry is falsy exactly when the engine is switched off. */
  lemma FalsyIsUnconfigured(e: string)
    requires e in Table
    ensures !Truthy(Table[e]) <==> e in Unconfigured
  {
    TableKeys();
    UnconfiguredAreOff();
    VerbatimAreOn();
    PackagedArePackages();
  }

  /** The only extensions naming the same package are `pug` with `jade`, and `scss` with `sass`. */
  lemma SharedPackages(e1: string, e2: string)
    requires e1 in Packaged && e2 in Packaged && e1 != e2
    requires Table[e1] == Table[e2]
    ensures {e1, e2} == {"pug", "jade"} || {e1, e2} == {"scss", "sass"}
  {
  }
}
