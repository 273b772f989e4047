/** The page cache's key: six length-prefixed fields, which a reader can take apart again. */
module CacheKey {
  import opened Text

  /** Everything that changes what the network returns. */
  datatype KeyInputs = KeyInputs(url: string, renderJs: Option<bool>, waitFor: Option<nat>, rendererPin: Option<string>,
                                 userAgent: string, mayEscalate: bool)

  // ----- numbers in decimal -----

  function Digit(d: nat): char
    requires d < 10
  {
    '0' + d as char
  }

  /** `to_string` of an unsigned number. */
  function Decimal(n: nat): (s: string)
    ensures s != "" && forall i :: 0 <= i < |s| ==> IsAsciiDigit(s[i])
  {
    if n < 10 then [Digit(n)] else Decimal(n / 10) + [Digit(n % 10)]
  }

  function Value(s: string): nat
    requires forall i :: 0 <= i < |s| ==> IsAsciiDigit(s[i])
  {
    if s == "" then 0
    else
      var last := s[|s| - 1];
      assert IsAsciiDigit(last);
      10 * Value(s[..|s| - 1]) + (last - '0') as nat
  }

  lemma {:induction false} DecimalHasValue(n: nat)
    ensures Value(Decimal(n)) == n
  {
    if n < 10 {
      assert Decimal(n)[..0] == "";
    } else {
      DecimalHasValue(n / 10);
      var s := Decimal(n);
      assert s[..|s| - 1] == Decimal(n / 10);
    }
  }

  // ----- the key -----

  /** One field: its length, a colon, the value, a bar. */
  function Field(s: string): string
  {
    Decimal(|s|) + ":" + s + "|"
  }

  function RenderJsText(js: Option<bool>): string
  {
    match js
    case Some(true) => "js=1"
    case Some(false) => "js=0"
    case None => "js=auto"
  }

  function WaitText(w: Option<nat>): string
  {
    match w
    case Some(n) => Decimal(n)
    case None => ""
  }

  function PinText(pin: Option<string>): string
  {
    match pin
    case Some(p) => p
    case None => ""
  }

  function EscalateText(b: bool): string
  {
    if b then "esc=1" else "esc=0"
  }

  function FieldValues(i: KeyInputs): seq<string>
  {
    [i.url, RenderJsText(i.renderJs), WaitText(i.waitFor), PinText(i.rendererPin), i.userAgent,
     EscalateText(i.mayEscalate)]
  }

  function Fields(values: seq<string>): string
  {
    if values == [] then "" else Field(values[0]) + Fields(values[1..])
  }

  function KeyOf(i: KeyInputs): string
  {
    Fields(FieldValues(i))
  }

  method Push(out: string, s: string) returns (r: string)
    ensures r == out + Field(s)
  {
    r := out + Decimal(|s|);
    r := r + ":";
    r := r + s;
    r := r + "|";
    assert r == out + (Decimal(|s|) + ":" + s + "|");
  }

  method BuildKey(i: KeyInputs) returns (out: string)
    ensures out == KeyOf(i)
  {
    hide Field, Decimal, Fields;
    ghost var v := FieldValues(i);
    FieldByField(v);
    out := Push("", i.url);
    out := Push(out, match i.renderJs case Some(true) => "js=1" case Some(false) => "js=0" case None => "js=auto");
    out := Push(out, match i.waitFor case Some(w) => Decimal(w) case None => "");
    out := Push(out, match i.rendererPin case Some(p) => p case None => "");
    out := Push(out, i.userAgent);
    out := Push(out, if i.mayEscalate then "esc=1" else "esc=0");
  }

  lemma {:induction false} FieldsSnoc(values: seq<string>, v: string)
    ensures Fields(values + [v]) == Fields(values) + Field(v)
  {
    hide Field;
    if values == [] {
      assert [v][1..] == [] && [] + [v] == [v];
    } else {
      assert (values + [v])[1..] == values[1..] + [v];
      FieldsSnoc(values[1..], v);
    }
  }

  lemma FieldByField(v: seq<string>)
    requires |v| == 6
    ensures Fields(v) == "" + Field(v[0]) + Field(v[1]) + Field(v[2]) + Field(v[3]) + Field(v[4]) + Field(v[5])
  {
    hide Field;
    assert Fields([]) == "";
    hide Fields;
    FieldAdded(v, 0);
    FieldAdded(v, 1);
    FieldAdded(v, 2);
    FieldAdded(v, 3);
    FieldAdded(v, 4);
    FieldAdded(v, 5);
    assert v[..0] == [] && v[..6] == v;
  }

  lemma FieldAdded(v: seq<string>, k: nat)
    requires k < |v|
    ensures Fields(v[..k + 1]) == Fields(v[..k]) + Field(v[k])
  {
    hide Field, Fields;
    assert v[..k + 1] == v[..k] + [v[k]];
    FieldsSnoc(v[..k], v[k]);
  }

  // ----- taking a key apart -----

  /** Reads one field off the front: digits up to the first colon, that many characters, a bar. */
  function TakeField(s: string): Option<(string, string)>
  {
    var colon := FirstIndex(s, c => c == ':');
    if colon == |s| || exists i :: 0 <= i < colon && !IsAsciiDigit(s[i]) then None
    else
      var n := Value(s[..colon]);
      var rest := s[colon + 1..];
      if n >= |rest| || rest[n] != '|' then None else Some((rest[..n], rest[n + 1..]))
  }

  function TakeFields(s: string): Option<seq<string>>
    decreases |s|
  {
    if s == "" then Some([])
    else match TakeField(s)
      case None => None
      case Some((value, rest)) =>
        if |rest| >= |s| then None
        else match TakeFields(rest)
          case None => None
          case Some(values) => Some([value] + values)
  }

  lemma TakeFieldUndoesField(v: string, rest: string)
    ensures TakeField(Field(v) + rest) == Some((v, rest))
  {
    hide Decimal, Value, FirstIndex;
    var d := Decimal(|v|);
    var s := Field(v) + rest;
    FieldSplits(d, v, rest);
    assert forall i :: 0 <= i < |d| ==> s[i] == d[i] && IsAsciiDigit(s[i]) && s[i] != ':';
    assert FirstIndex(s, c => c == ':') == |d|;
    DecimalHasValue(|v|);
  }

  lemma FieldSplits(d: string, v: string, rest: string)
    ensures var s := d + ":" + v + "|" + rest; var tail := s[|d| + 1..];
      && s[..|d|] == d && s[|d|] == ':'
      && tail[..|v|] == v && tail[|v|] == '|' && tail[|v| + 1..] == rest
  {
    var s := d + ":" + v + "|" + rest;
    assert s[|d| + 1..] == v + "|" + rest;
  }

  lemma {:induction false} TakeFieldsUndoesFields(values: seq<string>)
    ensures TakeFields(Fields(values)) == Some(values)
  {
    hide Field, TakeField;
    if values != [] {
      var rest := Fields(values[1..]);
      TakeFieldUndoesField(values[0], rest);
      TakeFieldsUndoesFields(values[1..]);
      FieldIsNotEmpty(values[0]);
      assert [values[0]] + values[1..] == values;
    }
  }

  lemma FieldIsNotEmpty(v: string)
    ensures |Field(v)| > 0
  {
  }

  function ReadRenderJs(s: string): Option<bool>
  {
    if s == "js=1" then Some(true) else if s == "js=0" then Some(false) else None
  }

  function ReadWait(s: string): Option<nat>
  {
    if s == "" || exists i :: 0 <= i < |s| && !IsAsciiDigit(s[i]) then None else Some(Value(s))
  }

  function ReadPin(s: string): Option<string>
  {
    if s == "" then None else Some(s)
  }

  function ReadKey(key: string): Option<KeyInputs>
  {
    match TakeFields(key)
    case None => None
    case Some(v) =>
      if |v| != 6 then None
      else Some(KeyInputs(v[0], ReadRenderJs(v[1]), ReadWait(v[2]), ReadPin(v[3]), v[4], v[5] == "esc=1"))
  }

  /** An empty pin reads as no pin. */
  function WithoutEmptyPin(i: KeyInputs): KeyInputs
  {
    i.(rendererPin := if i.rendererPin == Some("") then None else i.rendererPin)
  }

  /** The key determines the inputs, whatever digits, colons or bars they contain. */
  lemma ReadKeyUndoesKeyOf(i: KeyInputs)
    ensures ReadKey(KeyOf(i)) == Some(WithoutEmptyPin(i))
  {
    hide Fields, TakeFields, RenderJsText, WaitText, ReadRenderJs, ReadWait;
    TakeFieldsUndoesFields(FieldValues(i));
    RenderJsReadsBack(i.renderJs);
    WaitReadsBack(i.waitFor);
    assert "esc=1"[4] != "esc=0"[4];
  }

  lemma RenderJsReadsBack(js: Option<bool>)
    ensures ReadRenderJs(RenderJsText(js)) == js
  {
    assert "js=auto"[3] == 'a' && "js=0"[3] == '0' && "js=1"[3] == '1';
  }

  lemma WaitReadsBack(w: Option<nat>)
    ensures ReadWait(WaitText(w)) == w
  {
    if w.Some? {
      DecimalHasValue(w.value);
    }
  }

  /** Two fetches share a key exactly when they agree on every input, up to an empty pin. */
  lemma SameKeyIffSameInputs(i: KeyInputs, j: KeyInputs)
    ensures KeyOf(i) == KeyOf(j) <==> WithoutEmptyPin(i) == WithoutEmptyPin(j)
  {
    ReadKeyUndoesKeyOf(i);
    ReadKeyUndoesKeyOf(j);
    if WithoutEmptyPin(i) == WithoutEmptyPin(j) {
      assert PinText(i.rendererPin) == PinText(j.rendererPin);
      assert FieldValues(i) == FieldValues(j);
    }
  }

  // ----- the pins that occur -----

  datatype Renderer = Auto | Lightpanda | Chrome | ChromeProxy | Playwright | Camofox | ImpersonatedHttp

  function PinnedName(r: Renderer): (name: Option<string>)
    ensures name != Some("")
  {
    match r
    case Auto => None
    case Lightpanda => Some("lightpanda")
    case Chrome => Some("chrome")
    case ChromeProxy => Some("chrome_proxy")
    case Playwright => Some("playwright")
    case Camofox => Some("camofox")
    case ImpersonatedHttp => Some("impersonated-http")
  }

  predicate ImpliesJs(r: Renderer)
  {
    r != ImpersonatedHttp && r != Auto
  }

  /** For the pins a request can name, equal keys mean equal inputs. */
  lemma SameKeySameInputs(i: KeyInputs, j: KeyInputs)
    requires i.rendererPin != Some("") && j.rendererPin != Some("") && KeyOf(i) == KeyOf(j)
    ensures i == j
  {
    SameKeyIffSameInputs(i, j);
  }
}
