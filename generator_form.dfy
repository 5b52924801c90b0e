/**
  The generator form's fixed tables and its two button-enable rules.
*/
module GeneratorForm {
  import opened Strings

  /** The tab names, in display order. */
  const Tabs: seq<string> := ["LINK", "TEXT", "EMAIL", "WIFI", "DATA"]

  /** The five tabs; the component's active tab only ever holds one of their names. */
  datatype Tab = Link | Text | Email | Wifi | Data

  /** The name a tab carries in the tab list. */
  function TabName(t: Tab): (name: string)
    ensures name in Tabs
    ensures name == "WIFI" <==> t == Wifi
    ensures name == "EMAIL" <==> t == Email
    ensures name == "DATA" <==> t == Data
  {
    match t
    case Link => Tabs[0]
    case Text => Tabs[1]
    case Email => Tabs[2]
    case Wifi => Tabs[3]
    case Data => Tabs[4]
  }

  const DefaultPlaceholder: string := "Enter your data..."
  const DefaultLabel: string := "Input Data"

  /** `getPlaceholderText`. */
  function PlaceholderText(tab: string): (r: string)
    ensures tab !in Tabs ==> r == DefaultPlaceholder
    ensures tab == "EMAIL" <==> r == ""
  {
    match tab
    case "LINK" => "https://yourwebsite.com/page"
    case "TEXT" => "Enter your text here..."
    case "EMAIL" => ""
    case "WIFI" => "Enter WiFi Network Name (SSID)"
    case "DATA" => "Enter data for QR code..."
    case _ => DefaultPlaceholder
  }

  /** `getLabelText`. */
  function LabelText(tab: string): (r: string)
    ensures tab !in Tabs ==> r == DefaultLabel
  {
    match tab
    case "LINK" => "Website URL"
    case "TEXT" => "Text Content"
    case "EMAIL" => "Email Configuration"
    case "WIFI" => "WiFi Configuration"
    case "DATA" => "Custom Data"
    case _ => DefaultLabel
  }

  /** Every tab has its own label, and none of them is the default label. */
  lemma TabLabelsDistinct()
    ensures forall i, j :: 0 <= i < j < |Tabs| ==> LabelText(Tabs[i]) != LabelText(Tabs[j])
    ensures forall i :: 0 <= i < |Tabs| ==> LabelText(Tabs[i]) != DefaultLabel
  {
    // The labels differ in length, except the first and the last, which
    // differ in their first letter; the default is shorter than all of them.
    var lengths := [11, 12, 19, 18, 11];
    forall i | 0 <= i < |Tabs|
      ensures |LabelText(Tabs[i])| == lengths[i] && LabelText(Tabs[i])[0] == "WTEWC"[i]
    {
      if i == 0 {} else if i == 1 {} else if i == 2 {} else if i == 3 {} else {}
    }
    forall i, j | 0 <= i < j < |Tabs|
      ensures LabelText(Tabs[i]) != LabelText(Tabs[j])
    {
      if i == 0 && j == 4 {
        assert LabelText(Tabs[i])[0] != LabelText(Tabs[j])[0];
      } else {
        assert lengths[i] != lengths[j];
      }
    }
  }

  /** Every tab has its own placeholder, and none of them is the default placeholder. */
  lemma TabPlaceholdersDistinct()
    ensures forall i, j :: 0 <= i < j < |Tabs| ==> PlaceholderText(Tabs[i]) != PlaceholderText(Tabs[j])
    ensures forall i :: 0 <= i < |Tabs| ==> PlaceholderText(Tabs[i]) != DefaultPlaceholder
  {
    // The placeholders differ in length, and none is as long as the default.
    var lengths := [28, 23, 0, 30, 25];
    forall i | 0 <= i < |Tabs|
      ensures |PlaceholderText(Tabs[i])| == lengths[i]
    {
      if i == 0 {} else if i == 1 {} else if i == 2 {} else if i == 3 {} else {}
    }
    forall i, j | 0 <= i < j < |Tabs|
      ensures PlaceholderText(Tabs[i]) != PlaceholderText(Tabs[j])
    {
      assert lengths[i] != lengths[j];
    }
  }

  /** The field a tab cannot generate without (email: recipient, WiFi: network name, others: input) is blank. */
  function RequiredFieldBlank(tab: string, emailTo: string, wifiSSID: string, inputValue: string): (blank: bool)
    ensures tab == "EMAIL" ==> (blank <==> AllSpace(emailTo))
    ensures tab == "WIFI" ==> (blank <==> AllSpace(wifiSSID))
    ensures tab != "EMAIL" && tab != "WIFI" ==> (blank <==> AllSpace(inputValue))
  {
    || (tab == "EMAIL" && Trim(emailTo) == "")
    || (tab == "WIFI" && Trim(wifiSSID) == "")
    || (tab != "EMAIL" && tab != "WIFI" && Trim(inputValue) == "")
  }

  /** The Generate button's `disabled` expression. */
  function GenerateDisabled(isGenerating: bool, tab: string, emailTo: string, wifiSSID: string, inputValue: string): (disabled: bool)
    ensures disabled <==> isGenerating || RequiredFieldBlank(tab, emailTo, wifiSSID, inputValue)
  {
    || isGenerating
    || (tab == "EMAIL" && Trim(emailTo) == "")
    || (tab == "WIFI" && Trim(wifiSSID) == "")
    || (tab != "EMAIL" && tab != "WIFI" && Trim(inputValue) == "")
  }

  /** The "Generate & Save" button's `disabled` expression. */
  function DownloadDisabled(isDownloading: bool, tab: string, emailTo: string, wifiSSID: string, inputValue: string): (disabled: bool)
    ensures disabled <==> isDownloading || RequiredFieldBlank(tab, emailTo, wifiSSID, inputValue)
  {
    || isDownloading
    || (tab == "EMAIL" && Trim(emailTo) == "")
    || (tab == "WIFI" && Trim(wifiSSID) == "")
    || (tab != "EMAIL" && tab != "WIFI" && Trim(inputValue) == "")
  }

  /** Both buttons are disabled exactly when their busy flag is set or the required field is blank. */
  lemma ButtonsDisabledByRequiredField(busy: bool, tab: string, emailTo: string, wifiSSID: string, inputValue: string)
    ensures GenerateDisabled(busy, tab, emailTo, wifiSSID, inputValue) <==> busy || RequiredFieldBlank(tab, emailTo, wifiSSID, inputValue)
    ensures DownloadDisabled(busy, tab, emailTo, wifiSSID, inputValue) <==> GenerateDisabled(busy, tab, emailTo, wifiSSID, inputValue)
  {
  }

  /** Only the tab's own field counts: a blank input does not disable the WiFi or email tab. */
  lemma OtherFieldsDoNotDisable(emailTo: string, wifiSSID: string)
    requires Trim(emailTo) != "" && Trim(wifiSSID) != ""
    ensures !GenerateDisabled(false, "EMAIL", emailTo, "", "")
    ensures !GenerateDisabled(false, "WIFI", "", wifiSSID, "")
    ensures GenerateDisabled(false, "TEXT", emailTo, wifiSSID, "")
  {
    assert AllSpace("");
  }
}
