/**
 * Content sniffing and payload decoding for the `data:text/<subtype>,<payload>`
 * envelope (the data URI form of section 2 of RFC 2397) that a run's text
 * values use to carry tables, molecular structures and HTML fragments.
 */
module DataUri {
  import opened Wrappers
  import opened JsString

  /** The prefix every rich value starts with. */
  const CustomPrefix: string := "data:text/"
  /** The prefix of a table payload (16 characters). */
  const TablePrefix: string := "data:text/table,"
  /** The prefix of an HTML payload (15 characters). */
  const HtmlPrefix: string := "data:text/html,"
  /** The tags, up to the first comma, of the molecular formats. */
  const MolecularTags: set<string> :=
    {"data:text/pdb", "data:text/sdf", "data:text/pdbqt", "data:text/mol2"}
  /** The molecular subtypes, as the 3-D viewer receives them. */
  const MolecularSubtypes: set<string> := {"pdb", "sdf", "pdbqt", "mol2"}

  /** The batch gate's per-item test: the text starts with `data:text/`. */
  predicate IsCustom(s: string)
  {
    StartsWith(s, CustomPrefix)
  }

  /** `is_table_data`. */
  predicate IsTable(s: string)
  {
    StartsWith(s, TablePrefix)
  }

  /** `is_html_data`. */
  predicate IsHtml(s: string)
  {
    StartsWith(s, HtmlPrefix)
  }

  /** `content.split(',', 1)[0]`: the text before the first comma, or all of it. */
  function LeadingTag(s: string): (t: string)
    ensures ',' !in t
    ensures ',' !in s ==> t == s
    ensures ',' in s ==> StartsWith(s, t + [','])
  {
    var i := IndexOf(s, ',');
    assert i >= 0 ==> s[..i + 1] == s[..i] + [','];
    SplitLimit(s, ',', 1)[0]
  }

  /** A comma-free tag that the text equals, or that it starts with followed by a comma, is its leading tag. */
  lemma LeadingTagOf(s: string, t: string)
    requires ',' !in t
    requires s == t || StartsWith(s, t + [','])
    ensures LeadingTag(s) == t
  {
    if s != t {
      assert s[..|t|] == t;
      assert s[|t|] == ',';
      IndexOfIsFirst(s, ',', |t|);
    } else {
      assert IndexOf(s, ',') == -1;
    }
  }

  /** `is_moleculer_data`: the leading tag is exactly one of the molecular tags. */
  predicate IsMolecular(s: string)
  {
    LeadingTag(s) in MolecularTags
  }

  /** The kind of payload a text carries, in the order the renderer tests them. */
  datatype Kind = Molecular | Table | Html | PlainText

  function Classify(s: string): Kind
  {
    if IsMolecular(s) then Molecular
    else if IsTable(s) then Table
    else if IsHtml(s) then Html
    else PlainText
  }

  /** A table payload's leading tag is `data:text/table`. */
  lemma TableTag(s: string)
    requires IsTable(s)
    ensures LeadingTag(s) == "data:text/table"
  {
    assert s[..16] == TablePrefix;
    LeadingTagOf(s, "data:text/table");
  }

  /** An HTML payload's leading tag is `data:text/html`. */
  lemma HtmlTag(s: string)
    requires IsHtml(s)
    ensures LeadingTag(s) == "data:text/html"
  {
    assert s[..15] == HtmlPrefix;
    LeadingTagOf(s, "data:text/html");
  }

  /** At most one of the three kind predicates holds of any text. */
  lemma KindsExclusive(s: string)
    ensures !(IsTable(s) && IsHtml(s))
    ensures !(IsTable(s) && IsMolecular(s))
    ensures !(IsHtml(s) && IsMolecular(s))
  {
    if IsTable(s) {
      assert s[10] == 't';
      TableTag(s);
    }
    if IsHtml(s) {
      assert s[10] == 'h';
      HtmlTag(s);
    }
  }

  /** Each molecular tag is `data:text/` followed by a molecular subtype. */
  lemma MolecularTagShape(t: string)
    requires t in MolecularTags
    ensures |t| > 10 && t == CustomPrefix + t[10..] && t[10..] in MolecularSubtypes
  {
    if t == "data:text/pdb" {
      assert t[10..] == "pdb";
    } else if t == "data:text/sdf" {
      assert t[10..] == "sdf";
    } else if t == "data:text/pdbqt" {
      assert t[10..] == "pdbqt";
    } else {
      assert t[10..] == "mol2";
    }
  }

  /** No molecular subtype contains a `/`. */
  lemma SubtypeHasNoSlash(sub: string)
    requires sub in MolecularSubtypes
    ensures '/' !in sub
  {
    if sub == "pdb" {
    } else if sub == "sdf" {
    } else if sub == "pdbqt" {
    } else {
      assert sub == "mol2";
    }
  }

  /** Every text of a known kind passes the batch gate's per-item test. */
  lemma KindsAreCustom(s: string)
    requires IsTable(s) || IsMolecular(s) || IsHtml(s)
    ensures IsCustom(s)
  {
    if IsMolecular(s) {
      var t := LeadingTag(s);
      MolecularTagShape(t);
      assert s[..|t|] == t by {
        if ',' in s {
          assert s[..|t| + 1] == t + [','];
        }
      }
      assert s[..10] == t[..10];
    } else if IsTable(s) {
      assert s[..10] == TablePrefix[..10];
    } else {
      assert s[..10] == HtmlPrefix[..10];
    }
  }

  /** `Classify` names exactly the kind predicate that holds. */
  lemma ClassifyIff(s: string)
    ensures Classify(s) == Molecular <==> IsMolecular(s)
    ensures Classify(s) == Table <==> IsTable(s)
    ensures Classify(s) == Html <==> IsHtml(s)
    ensures Classify(s) != PlainText ==> IsCustom(s)
  {
    KindsExclusive(s);
    if Classify(s) != PlainText {
      KindsAreCustom(s);
    }
  }

  /** A molecular value is one of the tags alone, or a tag followed by a comma. */
  lemma MolecularIff(s: string)
    ensures IsMolecular(s) <==>
      exists t :: t in MolecularTags && (s == t || StartsWith(s, t + [',']))
  {
    if IsMolecular(s) {
      var t := LeadingTag(s);
      assert t in MolecularTags && (s == t || StartsWith(s, t + [',']));
    } else {
      forall t | t in MolecularTags
        ensures !(s == t || StartsWith(s, t + [',']))
      {
        assert ',' !in t;
        if s == t || StartsWith(s, t + [',']) {
          LeadingTagOf(s, t);
        }
      }
    }
  }

  /** A longer tag such as `data:text/pdbx` is not molecular, whatever follows its comma. */
  lemma OtherTagRejected(t: string, body: string)
    requires ',' !in t && t !in MolecularTags
    ensures !IsMolecular(t + [','] + body)
  {
    var s := t + [','] + body;
    assert s[..|t| + 1] == t + [','];
    LeadingTagOf(s, t);
  }

  /** `data:text/table,{}` is a table. */
  lemma ClassifyTableExample()
    ensures Classify("data:text/table,{}") == Table
  {
    var s := "data:text/table,{}";
    assert s[..16] == TablePrefix;
    ClassifyIff(s);
  }

  /** `data:text/pdb,ATOM` is molecular. */
  lemma ClassifyMolecularExample()
    ensures Classify("data:text/pdb,ATOM") == Molecular
  {
    var s := "data:text/pdb,ATOM";
    assert s[..14] == "data:text/pdb" + [','];
    LeadingTagOf(s, "data:text/pdb");
  }

  /** `data:text/html,<p>x</p>` is HTML. */
  lemma ClassifyHtmlExample()
    ensures Classify("data:text/html,<p>x</p>") == Html
  {
    var s := "data:text/html,<p>x</p>";
    assert s[..15] == HtmlPrefix;
    ClassifyIff(s);
  }

  /** `data:text/pdbx,<body>` is plain text: its tag is longer than `data:text/pdb`. */
  lemma ClassifyLongerTagExample(body: string)
    ensures Classify("data:text/pdbx," + body) == PlainText
  {
    var t := "data:text/pdbx";
    var p := t + [','] + body;
    assert "data:text/pdbx," + body == p;
    assert t !in MolecularTags by {
      assert "data:text/mol2"[10] == 'm';
      assert t[10] == 'p';
    }
    OtherTagRejected(t, body);
    assert p[10] == 'p';
    assert !IsTable(p) by {
      assert TablePrefix[10] == 't';
    }
    assert !IsHtml(p) by {
      assert HtmlPrefix[10] == 'h';
    }
  }

  /** `hello` is plain text. */
  lemma ClassifyHelloExample()
    ensures Classify("hello") == PlainText
  {
    LeadingTagOf("hello", "hello");
  }

  /** `render_table_data`'s prefix strip. */
  function TablePayload(s: string): string
  {
    SubstringFrom(s, |TablePrefix|)
  }

  /** A table value is its prefix followed by its payload. */
  lemma TableSplit(s: string)
    requires IsTable(s)
    ensures TablePrefix + TablePayload(s) == s
  {
    assert s == s[..16] + s[16..];
  }

  /** Wrapping any payload in the table prefix gives a table value that decodes back to it. */
  lemma TableEnvelope(payload: string)
    ensures IsTable(TablePrefix + payload)
    ensures TablePayload(TablePrefix + payload) == payload
  {
    assert (TablePrefix + payload)[..16] == TablePrefix;
    assert (TablePrefix + payload)[16..] == payload;
  }

  /** `render_html_data`'s prefix strip. */
  function HtmlPayload(s: string): string
  {
    SubstringFrom(s, |HtmlPrefix|)
  }

  /** An HTML value is its prefix followed by its payload. */
  lemma HtmlSplit(s: string)
    requires IsHtml(s)
    ensures HtmlPrefix + HtmlPayload(s) == s
  {
    assert s == s[..15] + s[15..];
  }

  /** Wrapping any markup in the HTML prefix gives an HTML value that decodes back to it. */
  lemma HtmlEnvelope(markup: string)
    ensures IsHtml(HtmlPrefix + markup)
    ensures HtmlPayload(HtmlPrefix + markup) == markup
  {
    assert (HtmlPrefix + markup)[..15] == HtmlPrefix;
    assert (HtmlPrefix + markup)[15..] == markup;
  }

  /**
   * The iframe's address: the markup, passed through `encode` (the page's
   * `encodeURIComponent`), under a fresh HTML prefix.
   */
  function HtmlUrl(s: string, encode: string -> string): (url: string)
    ensures IsHtml(url)
    ensures HtmlPayload(url) == encode(HtmlPayload(s))
  {
    HtmlEnvelope(encode(HtmlPayload(s)));
    HtmlPrefix + encode(HtmlPayload(s))
  }

  /** What `render_moleculer_data` hands the 3-D viewer: the file type and the structure text. */
  datatype Molecule = Molecule(dtype: Option<string>, body: string)

  /** `render_moleculer_data`'s split of the value at its first comma. */
  function MolecularDecode(s: string): Molecule
  {
    var i := IndexOf(s, ',');
    var dtype := Element(Split(Substring(s, 0, i), '/'), 1);
    Molecule(dtype, SubstringFrom(s, i + 1))
  }

  /** The pieces of `data:text/<sub>` split at `/`. */
  lemma SubtypeSplit(sub: string)
    requires sub in MolecularSubtypes
    ensures Split(CustomPrefix + sub, '/') == ["data:text", sub]
  {
    var parts := ["data:text", sub];
    SubtypeHasNoSlash(sub);
    assert '/' !in parts[0];
    assert Join(parts[1..], '/') == sub;
    assert Join(parts, '/') == "data:text" + ['/'] + sub;
    assert CustomPrefix + sub == "data:text" + ['/'] + sub;
    SplitJoin(parts, '/');
  }

  /** The first comma of a text that has one comes right after its leading tag. */
  lemma CommaAfterTag(s: string)
    requires ',' in s
    ensures IndexOf(s, ',') == |LeadingTag(s)|
    ensures s == LeadingTag(s) + [','] + s[|LeadingTag(s)| + 1..]
  {
    var t := LeadingTag(s);
    assert s[..|t| + 1] == t + [','];
    assert s[..|t|] == t && s[|t|] == ',';
    IndexOfIsFirst(s, ',', |t|);
  }

  /** With a comma present, the decoder splits the leading tag at `/` and takes the rest after the comma. */
  lemma DecodeWithComma(s: string)
    requires ',' in s
    ensures MolecularDecode(s) ==
      Molecule(Element(Split(LeadingTag(s), '/'), 1), s[|LeadingTag(s)| + 1..])
  {
    CommaAfterTag(s);
    var t := LeadingTag(s);
    assert Substring(s, 0, |t|) == s[..|t|];
  }

  /**
   * A molecular value with a comma decodes to a known subtype and a body
   * that rebuild the value.
   */
  lemma MolecularRoundTrip(s: string)
    requires IsMolecular(s) && ',' in s
    ensures MolecularDecode(s).dtype.Some?
    ensures MolecularDecode(s).dtype.value in MolecularSubtypes
    ensures CustomPrefix + MolecularDecode(s).dtype.value + [','] + MolecularDecode(s).body == s
  {
    var t := LeadingTag(s);
    DecodeWithComma(s);
    CommaAfterTag(s);
    MolecularTagShape(t);
    var sub := t[10..];
    SubtypeSplit(sub);
    assert Element(Split(t, '/'), 1) == Some(sub);
  }

  /**
   * A molecular value without a comma is a bare tag; the decoder then finds
   * no file type and hands the whole value over as the body.
   */
  lemma MolecularWithoutComma(s: string)
    requires IsMolecular(s) && ',' !in s
    ensures s in MolecularTags
    ensures MolecularDecode(s).dtype == None
    ensures MolecularDecode(s).body == s
  {
    assert Split([], '/') == [[]];
  }
}
