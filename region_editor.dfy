/** The region editor of the details panel: which editor a region gets, the
    input type of a property, the sanitiser and arrow-key stepping of the
    property input, the property-change guard, and the icon lookup of a
    property label. Property types are an abstract description of the state
    tree's types; number values typed into an input stay symbolic. */
module RegionEditor {
  import opened Common

  // ---------------------------------------------------------------------------
  // Choosing the editor

  datatype Editor = TimelineEditor | AudioEditor | PropertiesEditor

  /** The editor for a region of the given type; the audio editor needs the
      `FF_DEV_2715` feature flag. */
  function EditorFor(regionType: string, audioFlag: bool): (editor: Editor)
    ensures editor == TimelineEditor <==> regionType == "timelineregion"
    ensures editor == AudioEditor <==> audioFlag && regionType == "audioregion"
  {
    if regionType == "timelineregion" then TimelineEditor
    else if audioFlag && regionType == "audioregion" then AudioEditor
    else PropertiesEditor
  }

  // ---------------------------------------------------------------------------
  // Input types

  /** A property's type, as far as the editor inspects it. */
  datatype PropertyType =
    | Primitive(name: string)          // types.number, types.string, types.boolean
    | Optional(subtype: PropertyType)  // types.optional(...)
    | Union(members: seq<PropertyType>)
    | Literal(value: string)
    | Complex                          // models, arrays, maps and the rest

  /** `getPrimitiveType`: the primitive's name, looking through one optional wrapper. */
  function PrimitiveName(t: PropertyType): Option<string>
  {
    match t
    case Optional(sub) => if sub.Primitive? then Some(sub.name) else None
    case Primitive(name) => Some(name)
    case _ => None
  }

  /** `getInputType` */
  function InputType(t: PropertyType): string
  {
    match PrimitiveName(t)
    case Some("number") => "number"
    case _ => "text"
  }

  /** A property gets a number input exactly when its type is the number
      primitive, plain or optional; everything else gets a text input. */
  lemma {:induction false} NumberInputIffNumberType(t: PropertyType)
    ensures InputType(t) == "number" <==> t == Primitive("number") || t == Optional(Primitive("number"))
    ensures InputType(t) != "number" ==> InputType(t) == "text"
  {
  }

  // ---------------------------------------------------------------------------
  // The property input

  /** An input value: the typed text, or `Number.parseFloat(text)`, or a value
      moved by an arrow key by `hundredths / 100`. */
  datatype InputValue =
    | Text(text: string)
    | ParsedNumber(source: string)
    | Stepped(from: InputValue, hundredths: int)

  predicate IsNumberChar(c: char) {
    '0' <= c <= '9' || c == ',' || c == '.'
  }

  /** `/^([0-9,.]+)$/` matches. */
  predicate NumberLike(text: string) {
    |text| > 0 && forall i :: 0 <= i < |text| ==> IsNumberChar(text[i])
  }

  /** `/(,|\.)$/` matches. */
  predicate EndsInSeparator(text: string) {
    |text| > 0 && (text[|text| - 1] == ',' || text[|text| - 1] == '.')
  }

  /** `text.replace(/,/, ".")`: the first comma, if any, becomes a dot. */
  function ReplaceFirstComma(text: string): (r: string)
    ensures |r| == |text|
    ensures ',' !in text ==> r == text
  {
    if |text| == 0 then text
    else if text[0] == ',' then "." + text[1..]
    else
      assert text == [text[0]] + text[1..];
      [text[0]] + ReplaceFirstComma(text[1..])
  }

  /** The comma replaced is the first one, and nothing else changes. */
  lemma {:induction false} ReplaceFirstCommaAt(text: string, k: nat)
    requires k < |text| && text[k] == ',' && ',' !in text[..k]
    ensures ReplaceFirstComma(text) == text[..k] + "." + text[k + 1..]
  {
    if k > 0 {
      assert text[0] == text[..k][0];
      assert text[1..][..k - 1] == text[1..k];
      assert ',' !in text[1..][..k - 1] by {
        assert forall c :: c in text[1..k] ==> c in text[..k];
      }
      ReplaceFirstCommaAt(text[1..], k - 1);
      assert text[..k] == [text[0]] + text[1..][..k - 1];
      assert text[1..][k..] == text[k + 1..];
    }
  }

  /** What the input's change handler makes of the typed text: the value it
      shows and whether the value is passed on. A number input passes on the
      parsed number of a text made only of digits, commas and dots that does
      not end in a comma or a dot; such a trailing separator turns the first
      comma into a dot and holds the value back; any other text is shown as
      typed and held back. A text input passes the text on unchanged. */
  function Sanitised(inputType: string, text: string): (result: (InputValue, bool))
    ensures inputType != "number" ==> result == (Text(text), true)
    ensures inputType == "number" ==>
      (result.1 <==> NumberLike(text) && !EndsInSeparator(text))
      && (result.1 ==> result.0 == ParsedNumber(text))
      && (EndsInSeparator(text) ==> result.0 == Text(ReplaceFirstComma(text)))
      && (!result.1 && !EndsInSeparator(text) ==> result.0 == Text(text))
  {
    if inputType != "number" then (Text(text), true)
    else if EndsInSeparator(text) then (Text(ReplaceFirstComma(text)), false)
    else if NumberLike(text) then (ParsedNumber(text), true)
    else (Text(text), false)
  }

  /** A trailing comma becomes a dot when it is the text's only comma: "12,"
      is shown as "12." while the typing goes on. */
  lemma {:induction false} TrailingCommaBecomesDot(digits: string)
    requires ',' !in digits
    ensures Sanitised("number", digits + ",") == (Text(digits + "."), false)
  {
    var text := digits + ",";
    assert text[..|digits|] == digits;
    ReplaceFirstCommaAt(text, |digits|);
    assert text[|digits| + 1..] == "";
    assert EndsInSeparator(text);
    assert ReplaceFirstComma(text) == digits + ".";
  }

  /** The arrow-key step, in hundredths: 0.01 with alt and shift, 10 with
      shift, 0.1 with alt, else 1. */
  function StepHundredths(altKey: bool, shiftKey: bool): (step: int)
    ensures step > 0
    ensures step == 1 <==> altKey && shiftKey
    ensures step == 1000 <==> shiftKey && !altKey
    ensures step == 10 <==> altKey && !shiftKey
    ensures step == 100 <==> !altKey && !shiftKey
  {
    if altKey && shiftKey then 1 else if shiftKey then 1000 else if altKey then 10 else 100
  }

  /** A key press on the input. */
  datatype KeyPress = KeyPress(key: string, altKey: bool, shiftKey: bool)

  /** The property input (`RegionInput`): the value it shows and the values
      it has passed to its `onChange`, oldest first. */
  class RegionInput {
    const inputType: string
    var currentValue: InputValue
    var passedOn: seq<InputValue>

    /** Mounting: the value is shown and, through the value effect, passed on. */
    constructor(inputType: string, value: InputValue)
      ensures this.inputType == inputType && currentValue == value && passedOn == [value]
    {
      this.inputType := inputType;
      currentValue := value;
      passedOn := [value];
    }

    /** `updateValue`: show the value, and pass it on when it is safe. */
    method UpdateValue(value: InputValue, safeValue: bool)
      modifies this
      ensures currentValue == value
      ensures passedOn == old(passedOn) + (if safeValue then [value] else [])
    {
      currentValue := value;
      if safeValue {
        passedOn := passedOn + [value];
      }
    }

    /** The change handler, for the text now in the input. */
    method OnChange(text: string)
      modifies this
      ensures currentValue == Sanitised(inputType, text).0
      ensures passedOn == old(passedOn) + (if Sanitised(inputType, text).1 then [currentValue] else [])
    {
      var value := Text(text);
      var safeValue := true;
      if inputType == "number" {
        if !NumberLike(text) {
          safeValue := false;
        }
        if EndsInSeparator(text) {
          value := Text(ReplaceFirstComma(text));
          safeValue := false;
        }
        if safeValue {
          value := ParsedNumber(text);
        }
      }
      UpdateValue(value, safeValue);
    }

    /** The key handler: on a number input, ArrowUp and ArrowDown move the
        value by the step and pass it on; any other key, or any key on a text
        input, changes nothing. */
    method OnKeyDown(press: KeyPress)
      modifies this
      ensures inputType == "number" && press.key in {"ArrowUp", "ArrowDown"} ==>
        var step := StepHundredths(press.altKey, press.shiftKey);
        var moved := Stepped(old(currentValue), if press.key == "ArrowUp" then step else -step);
        currentValue == moved && passedOn == old(passedOn) + [moved]
      ensures !(inputType == "number" && press.key in {"ArrowUp", "ArrowDown"}) ==>
        currentValue == old(currentValue) && passedOn == old(passedOn)
    {
      if inputType != "number" {
        return;
      }
      if press.key == "ArrowUp" || press.key == "ArrowDown" {
        var step := StepHundredths(press.altKey, press.shiftKey);
        var newValue := if press.key == "ArrowUp" then Stepped(currentValue, step) else Stepped(currentValue, -step);
        UpdateValue(newValue, true);
      }
    }

    /** The value effect: a new `value` prop is shown and passed on. */
    method ValueChanged(value: InputValue)
      modifies this
      ensures currentValue == value && passedOn == old(passedOn) + [value]
    {
      UpdateValue(value, true);
    }
  }

  // ---------------------------------------------------------------------------
  // Property changes

  /** `!==` on the property values the editor compares: `NaN` differs from
      everything, itself included. */
  predicate StrictlyEqual(a: Val, b: Val) {
    a != NaN && a == b
  }

  /** The region's editable properties, as far as the editor changes them. */
  class PropertyRegion {
    var properties: map<string, Val>
    /** Errors logged to the console. */
    var loggedErrors: nat

    constructor(properties: map<string, Val>)
      ensures this.properties == properties && loggedErrors == 0
    {
      this.properties := properties;
      loggedErrors := 0;
    }

    /** `RegionProperty`'s change handler. `rejects` says whether the region's
        `setProperty` throws for this value; the error is logged, not raised. */
    method OnPropertyChange(property: string, value: Val, rejects: bool)
      modifies this
      ensures StrictlyEqual(value, Get(old(properties), property)) ==>
        properties == old(properties) && loggedErrors == old(loggedErrors)
      ensures !StrictlyEqual(value, Get(old(properties), property)) && rejects ==>
        properties == old(properties) && loggedErrors == old(loggedErrors) + 1
      ensures !StrictlyEqual(value, Get(old(properties), property)) && !rejects ==>
        properties == old(properties)[property := value] && loggedErrors == old(loggedErrors)
    {
      if !StrictlyEqual(value, Get(properties, property)) {
        if rejects {
          loggedErrors := loggedErrors + 1;
        } else {
          properties := properties[property := value];
        }
      }
    }
  }

  // ---------------------------------------------------------------------------
  // Property labels

  datatype Icon = AngleIcon

  /** `IconMapping[name]` */
  function IconNamed(name: Option<string>): Option<Icon> {
    if name == Some("angle") then Some(AngleIcon) else None
  }

  /** What a property label shows. */
  datatype LabelContent = IconContent(icon: Icon) | TextContent(text: string)

  /** `PropertyLabel`: a label starting with "icon:" names an icon by the
      piece after the first colon; a known icon is shown, anything else shows
      the label's text. */
  function LabelShown(caption: string): (shown: LabelContent)
    ensures shown.TextContent? ==> shown.text == caption
    ensures !StartsWith(caption, "icon:") ==> shown == TextContent(caption)
  {
    if StartsWith(caption, "icon:") then
      var parts := Split(caption, ':');
      var name := if |parts| > 1 then Some(parts[1]) else None;
      match IconNamed(name)
      case Some(icon) => IconContent(icon)
      case None => TextContent(caption)
    else TextContent(caption)
  }

  /** For a label "icon:<name>" with no further colon, the icon is shown
      exactly when the name is "angle". */
  lemma {:induction false} IconLabel(name: string)
    requires ':' !in name
    ensures LabelShown("icon:" + name) == if name == "angle" then IconContent(AngleIcon) else TextContent("icon:" + name)
  {
    var caption := "icon:" + name;
    assert caption[..5] == "icon:";
    assert caption == "icon" + (":" + name);
    SplitWithoutSeparator("icon", ":" + name, ':');
    assert (":" + name)[1..] == name;
    SplitWithoutSeparator(name, "", ':');
    assert name + "" == name;
    assert Split(":" + name, ':') == [""] + Split(name, ':');
    assert Split(caption, ':')[1] == name;
  }
}
