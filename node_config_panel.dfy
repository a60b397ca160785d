/**
 * The node configuration panel (components/node-config-panel.tsx): the
 * selected node's configuration record, keyed edits of it, and the ordered
 * list of HTTP header rows of an API node, with append, edit-one-field and
 * remove-by-index. Every edit stores the new record and hands the same
 * record to the `onConfigChange` callback.
 */
module NodeConfigPanel {
  import opened Wrappers
  import opened Seqs

  // ---------------------------------------------------------------- data

  datatype Header = Header(name: string, value: string)

  /** The two fields of a header row that the form edits. */
  datatype HeaderField = NameField | ValueField

  /** A configuration value: a text field, or the list of header rows. */
  datatype ConfigValue = Text(text: string) | HeaderRows(rows: seq<Header>)

  /** A node's configuration record, keyed by field name. */
  type Config = map<string, ConfigValue>

  datatype NodeType = StartNode | EndNode | ApiNode | EmailNode | TextBoxNode

  datatype FlowNode = FlowNode(id: string, kind: NodeType, config: Option<Config>)

  /** The row `addHeader` appends. */
  const BlankHeader := Header("", "")

  /** The method shown for an API node whose method is unset. */
  const DefaultMethod := "GET"

  /** JavaScript truthiness of a configuration value: only the empty string is falsy. */
  predicate Truthy(v: ConfigValue) {
    !(v.Text? && v.text == "")
  }

  /** `node.data.config || {}`: the record the panel edits for `node`. */
  function ConfigOf(node: FlowNode): Config {
    node.config.GetOr(map[])
  }

  /** `config.headers || []`: the header rows, or none when the key is absent. */
  function HeadersOf(c: Config): seq<Header> {
    if "headers" in c && c["headers"].HeaderRows? then c["headers"].rows else []
  }

  /** `config[key] || fallback`: what a form control shows for `key`. */
  function Shown(c: Config, key: string, fallback: string): ConfigValue {
    if key in c && Truthy(c[key]) then c[key] else Text(fallback)
  }

  /** `config.method || "GET"`: the method selected in the API form. */
  function MethodShown(c: Config): ConfigValue {
    Shown(c, "method", DefaultMethod)
  }

  /** A new node, or one without a method, shows GET; after choosing a method, that method is shown. */
  lemma MethodShownDefault(c: Config, m: string)
    ensures "method" !in c ==> MethodShown(c) == Text(DefaultMethod)
    ensures MethodShown(c["method" := Text(m)]) == Text(if m == "" then DefaultMethod else m)
  {
  }

  // ------------------------------------------------------- header edits

  function FieldOf(h: Header, f: HeaderField): string {
    match f
    case NameField => h.name
    case ValueField => h.value
  }

  function OtherField(f: HeaderField): (g: HeaderField)
    ensures g != f
  {
    match f
    case NameField => ValueField
    case ValueField => NameField
  }

  /** `{ ...header, [field]: value }`: set one field of a row. */
  function WithField(h: Header, f: HeaderField, v: string): (r: Header)
    ensures FieldOf(r, f) == v
    ensures FieldOf(r, OtherField(f)) == FieldOf(h, OtherField(f))
  {
    match f
    case NameField => h.(name := v)
    case ValueField => h.(value := v)
  }

  /** The header list after `handleHeaderChange(index, field, v)`. */
  function HeadersWithField(hs: seq<Header>, index: nat, f: HeaderField, v: string): (r: seq<Header>)
    requires index < |hs|
    ensures |r| == |hs|
    ensures FieldOf(r[index], f) == v
    ensures FieldOf(r[index], OtherField(f)) == FieldOf(hs[index], OtherField(f))
    ensures forall j :: 0 <= j < |hs| && j != index ==> r[j] == hs[j]
  {
    hs[index := WithField(hs[index], f, v)]
  }

  /** The header list after `addHeader`. */
  function HeadersAppended(hs: seq<Header>): (r: seq<Header>)
    ensures |r| == |hs| + 1
    ensures r[..|hs|] == hs
    ensures r[|hs|] == BlankHeader
  {
    hs + [BlankHeader]
  }

  /** The header list after `removeHeader(index)` (`splice(index, 1)`). */
  function HeadersRemoved(hs: seq<Header>, index: nat): (r: seq<Header>)
    requires index < |hs|
    ensures |r| == |hs| - 1
    ensures forall j :: 0 <= j < index ==> r[j] == hs[j]
    ensures forall j :: index <= j < |r| ==> r[j] == hs[j + 1]
  {
    hs[..index] + hs[index + 1..]
  }

  /** Removing the row just added gives back the rows before. */
  lemma RemoveAppended(hs: seq<Header>)
    ensures HeadersRemoved(HeadersAppended(hs), |hs|) == hs
  {
  }

  /** Removing a row keeps the other rows in their order. */
  lemma {:induction false} RemovedKeepsOrder(hs: seq<Header>, index: nat)
    requires index < |hs|
    ensures IsSubsequence(HeadersRemoved(hs, index), hs)
  {
    var r := HeadersRemoved(hs, index);
    if index == 0 {
      assert r == hs[1..];
      SubsequenceReflexive(hs[1..]);
    } else {
      RemovedKeepsOrder(hs[1..], index - 1);
      assert r[1..] == HeadersRemoved(hs[1..], index - 1);
    }
  }

  /** Removing a row takes away exactly that one row. */
  lemma RemovedExactlyOne(hs: seq<Header>, index: nat)
    requires index < |hs|
    ensures multiset(HeadersRemoved(hs, index)) + multiset{hs[index]} == multiset(hs)
  {
    assert hs == hs[..index] + [hs[index]] + hs[index + 1..];
  }

  /** Editing the same field of a row twice keeps only the last value. */
  lemma EditTwiceLastWins(hs: seq<Header>, index: nat, f: HeaderField, a: string, b: string)
    requires index < |hs|
    ensures HeadersWithField(HeadersWithField(hs, index, f, a), index, f, b) == HeadersWithField(hs, index, f, b)
  {
  }

  /** Writing a field's current value back changes nothing. */
  lemma EditWithCurrentValue(hs: seq<Header>, index: nat, f: HeaderField)
    requires index < |hs|
    ensures HeadersWithField(hs, index, f, FieldOf(hs[index], f)) == hs
  {
    assert WithField(hs[index], f, FieldOf(hs[index], f)) == hs[index];
  }

  /** A record without a `headers` entry has no header rows; adding one gives the single blank row. */
  lemma MissingHeadersAreEmpty(c: Config)
    requires "headers" !in c
    ensures HeadersOf(c) == []
    ensures HeadersAppended(HeadersOf(c)) == [BlankHeader]
  {
  }

  /** Storing a header list under `headers` and reading it back gives the same list. */
  lemma HeadersOfStored(c: Config, hs: seq<Header>)
    ensures HeadersOf(c["headers" := HeaderRows(hs)]) == hs
  {
  }

  // ---------------------------------------------------- component state

  /** The panel's state: the selected node, the record being edited, and the records passed to `onConfigChange`. */
  class ConfigPanel {
    var node: FlowNode
    var config: Config
    /** Every record handed to `onConfigChange`, oldest first. */
    var sent: seq<Config>

    /** `useState(node.data.config || {})`. */
    constructor (n: FlowNode)
      ensures node == n && config == ConfigOf(n) && sent == []
    {
      node := n;
      config := ConfigOf(n);
      sent := [];
    }

    /** The effect on a change of node: the record is replaced by the new node's (or an empty one). */
    method SelectNode(n: FlowNode)
      modifies this`node, this`config
      ensures node == n && config == ConfigOf(n)
    {
      node := n;
      config := ConfigOf(n);
    }

    /** `handleChange(key, value)`: `key` now maps to `value`, every other key is as before, and the same record is sent. */
    method HandleChange(key: string, value: ConfigValue)
      modifies this`config, this`sent
      ensures config == old(config)[key := value]
      ensures key in config && config[key] == value
      ensures forall k :: k != key ==> (k in config <==> k in old(config))
      ensures forall k :: k != key && k in config ==> config[k] == old(config)[k]
      ensures sent == old(sent) + [config]
    {
      var newConfig := config[key := value];
      config := newConfig;
      sent := sent + [newConfig];
    }

    /** `handleHeaderChange(index, field, value)`: one field of one row changes. */
    method HandleHeaderChange(index: nat, field: HeaderField, value: string)
      requires index < |HeadersOf(config)|
      modifies this`config, this`sent
      ensures HeadersOf(config) == HeadersWithField(old(HeadersOf(config)), index, field, value)
      ensures config == old(config)["headers" := HeaderRows(HeadersOf(config))]
      ensures sent == old(sent) + [config]
    {
      var headers := HeadersOf(config);
      headers := headers[index := WithField(headers[index], field, value)];
      HandleChange("headers", HeaderRows(headers));
    }

    /** `addHeader`: a blank row is appended. */
    method AddHeader()
      modifies this`config, this`sent
      ensures HeadersOf(config) == HeadersAppended(old(HeadersOf(config)))
      ensures config == old(config)["headers" := HeaderRows(HeadersOf(config))]
      ensures sent == old(sent) + [config]
    {
      var headers := HeadersOf(config) + [BlankHeader];
      HandleChange("headers", HeaderRows(headers));
    }

    /** `removeHeader(index)`: the row at `index` is dropped. */
    method RemoveHeader(index: nat)
      requires index < |HeadersOf(config)|
      modifies this`config, this`sent
      ensures HeadersOf(config) == HeadersRemoved(old(HeadersOf(config)), index)
      ensures config == old(config)["headers" := HeaderRows(HeadersOf(config))]
      ensures sent == old(sent) + [config]
    {
      var headers := HeadersOf(config);
      headers := headers[..index] + headers[index + 1..];
      HandleChange("headers", HeaderRows(headers));
    }
  }
}
