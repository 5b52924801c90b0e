/**
  The generator's pure parts: the WiFi and `mailto:` payload builders, the
  create-QR API URL builder, the appearance settings and their updates, the
  input validation behind both generate buttons, the history item and its
  details, the 50-entry history, and the history's storage effects.
*/
module Payloads {
  import opened Wrappers
  import opened Strings
  import opened UriComponent
  import opened GeneratorForm

  // ---- WiFi ----

  /**
    `generateWifiQRData`: empty when the network name is blank; otherwise the
    `WIFI:` string with the fields inserted exactly as typed.
  */
  function WifiPayload(ssid: string, password: string, encryption: string): (r: string)
    ensures r == "" <==> Trim(ssid) == ""
  {
    if Trim(ssid) == "" then ""
    else "WIFI:S:" + ssid + ";T:" + encryption + ";" + (if password != "" then "P:" + password + ";" else "") + ";"
  }

  datatype WifiConfig = WifiConfig(ssid: string, encryption: string, password: string)

  /** The `;`-separated fields after `WIFI:`, the password field only when there is a password. */
  function WifiFields(ssid: string, password: string, encryption: string): seq<string> {
    ["S:" + ssid, "T:" + encryption] + (if password != "" then ["P:" + password] else []) + ["", ""]
  }

  /** Reads a payload of the shape `WifiPayload` writes back into its three fields. */
  function ParseWifi(payload: string): Option<WifiConfig> {
    if !StartsWith(payload, "WIFI:") then None
    else
      var f := Split(payload[5..], ';');
      if |f| == 5 && StartsWith(f[0], "S:") && StartsWith(f[1], "T:") && StartsWith(f[2], "P:") && f[2] != "P:" && f[3] == "" && f[4] == "" then
        Some(WifiConfig(f[0][2..], f[1][2..], f[2][2..]))
      else if |f| == 4 && StartsWith(f[0], "S:") && StartsWith(f[1], "T:") && f[2] == "" && f[3] == "" then
        Some(WifiConfig(f[0][2..], f[1][2..], ""))
      else None
  }

  lemma WifiPayloadUnfold(ssid: string, password: string, encryption: string)
    requires Trim(ssid) != ""
    ensures WifiPayload(ssid, password, encryption) ==
      "WIFI:S:" + ssid + ";T:" + encryption + ";" + (if password != "" then "P:" + password + ";" else "") + ";"
  {
  }

  lemma WifiFieldsJoin(ssid: string, password: string, encryption: string)
    ensures "WIFI:" + Join(WifiFields(ssid, password, encryption), ";") ==
      "WIFI:S:" + ssid + ";T:" + encryption + ";" + (if password != "" then "P:" + password + ";" else "") + ";"
  {
    var f := WifiFields(ssid, password, encryption);
    var tail := if password != "" then "P:" + password + ";" + ";" else ";";
    if password != "" {
      assert f == ["S:" + ssid, "T:" + encryption, "P:" + password, "", ""];
      assert Join(f[4..], ";") == "";
      assert Join(f[3..], ";") == ";" by { assert f[3..][1..] == f[4..]; }
      assert Join(f[2..], ";") == tail by { assert f[2..][1..] == f[3..]; }
    } else {
      assert f == ["S:" + ssid, "T:" + encryption, "", ""];
      assert Join(f[3..], ";") == "";
      assert Join(f[2..], ";") == tail by { assert f[2..][1..] == f[3..]; }
    }
    assert Join(f[1..], ";") == "T:" + encryption + ";" + tail by { assert f[1..][1..] == f[2..]; }
    assert Join(f, ";") == "S:" + ssid + ";" + ("T:" + encryption + ";" + tail);
    WifiHeadAssoc(ssid, encryption, tail);
    assert tail == (if password != "" then "P:" + password + ";" else "") + ";";
  }

  /** Regrouping the head of the WiFi payload. */
  lemma WifiHeadAssoc(ssid: string, encryption: string, tail: string)
    ensures "WIFI:" + ("S:" + ssid + ";" + ("T:" + encryption + ";" + tail)) == "WIFI:S:" + ssid + ";T:" + encryption + ";" + tail
  {
  }

  /** The payload is `WIFI:` followed by its fields joined with `;`. */
  lemma WifiPayloadIsFieldList(ssid: string, password: string, encryption: string)
    requires Trim(ssid) != ""
    ensures WifiPayload(ssid, password, encryption) == "WIFI:" + Join(WifiFields(ssid, password, encryption), ";")
  {
    WifiPayloadUnfold(ssid, password, encryption);
    WifiFieldsJoin(ssid, password, encryption);
  }

  /** A two-letter tag and a value without `;` make a field that starts with the tag and holds no `;`. */
  lemma TaggedField(tag: string, v: string)
    requires |tag| == 2 && ';' !in tag && ';' !in v
    ensures StartsWith(tag + v, tag) && (tag + v)[2..] == v && ';' !in tag + v
  {
    assert (tag + v)[..2] == tag;
    forall k | 0 <= k < |tag + v| ensures (tag + v)[k] != ';' {
      if k < 2 { assert (tag + v)[k] == tag[k]; } else { assert (tag + v)[k] == v[k - 2]; }
    }
  }

  /** A `WIFI:` payload that splits into the fields of a network reads back as that network. */
  lemma ParseWifiOfFields(p: string, ssid: string, password: string, encryption: string)
    requires StartsWith(p, "WIFI:") && Split(p[5..], ';') == WifiFields(ssid, password, encryption)
    ensures ParseWifi(p) == Some(WifiConfig(ssid, encryption, password))
  {
    var f := WifiFields(ssid, password, encryption);
    assert ("S:" + ssid)[..2] == "S:" && ("S:" + ssid)[2..] == ssid;
    assert ("T:" + encryption)[..2] == "T:" && ("T:" + encryption)[2..] == encryption;
    if password != "" {
      assert ("P:" + password)[..2] == "P:" && ("P:" + password)[2..] == password;
      assert f == ["S:" + ssid, "T:" + encryption, "P:" + password, "", ""];
      assert f[2] != "P:" by { assert |f[2]| > 2; }
    } else {
      assert f == ["S:" + ssid, "T:" + encryption, "", ""];
    }
  }

  lemma ParseWifiFields(ssid: string, password: string, encryption: string)
    requires ';' !in ssid && ';' !in password && ';' !in encryption
    ensures ParseWifi("WIFI:" + Join(WifiFields(ssid, password, encryption), ";")) == Some(WifiConfig(ssid, encryption, password))
  {
    var f := WifiFields(ssid, password, encryption);
    var p := "WIFI:" + Join(f, ";");
    assert p[..5] == "WIFI:" && p[5..] == Join(f, ";");
    TaggedField("S:", ssid);
    TaggedField("T:", encryption);
    TaggedField("P:", password);
    forall i | 0 <= i < |f| ensures ';' !in f[i] {
      if password != "" {
        assert f == ["S:" + ssid, "T:" + encryption, "P:" + password, "", ""];
      } else {
        assert f == ["S:" + ssid, "T:" + encryption, "", ""];
      }
    }
    SplitJoin(f, ';');
    ParseWifiOfFields(p, ssid, password, encryption);
  }

  /** When no field contains `;`, the payload reads back as the network it was built from. */
  lemma WifiRoundTrip(ssid: string, password: string, encryption: string)
    requires Trim(ssid) != ""
    requires ';' !in ssid && ';' !in password && ';' !in encryption
    ensures ParseWifi(WifiPayload(ssid, password, encryption)) == Some(WifiConfig(ssid, encryption, password))
  {
    WifiPayloadIsFieldList(ssid, password, encryption);
    ParseWifiFields(ssid, password, encryption);
  }

  /** The payload of a named network, written out for either password case. */
  lemma WifiPayloadShape(ssid: string, password: string, encryption: string)
    requires Trim(ssid) != ""
    ensures password != "" ==> WifiPayload(ssid, password, encryption) == "WIFI:S:" + ssid + ";T:" + encryption + ";P:" + password + ";;"
    ensures password == "" ==> WifiPayload(ssid, password, encryption) == "WIFI:S:" + ssid + ";T:" + encryption + ";;"
  {
    WifiPayloadUnfold(ssid, password, encryption);
    var head := "WIFI:S:" + ssid + ";T:" + encryption;
    assert head + ";" + ("P:" + password + ";") + ";" == head + ";P:" + password + ";;";
    assert head + ";" + "" + ";" == head + ";;";
  }

  /** The MyNet / secret / WPA example. */
  lemma WifiPayloadExample()
    ensures WifiPayload("MyNet", "secret", "WPA") == "WIFI:S:MyNet;T:WPA;P:secret;;"
  {
    assert "WIFI:S:" + "MyNet" + ";T:" + "WPA" == "WIFI:S:MyNet;T:WPA";
    assert "WIFI:S:MyNet;T:WPA" + ";P:" + "secret" + ";;" == "WIFI:S:MyNet;T:WPA;P:secret;;";
    TrimNonBlank("MyNet");
    WifiPayloadShape("MyNet", "secret", "WPA");
  }

  /** Without a password the `P:` field is left out. */
  lemma WifiPayloadOpenNetworkExample()
    ensures WifiPayload("Cafe", "", "nopass") == "WIFI:S:Cafe;T:nopass;;"
  {
    TrimNonBlank("Cafe");
    WifiPayloadShape("Cafe", "", "nopass");
  }

  /** A name of only spaces and tabs gives no payload. */
  lemma WifiPayloadBlankExample()
    ensures WifiPayload(" \t", "secret", "WPA") == ""
  {
    assert AllSpace(" \t") by { assert IsJsSpace(' ') && IsJsSpace('\t'); }
  }

  /** Without escaping, two different networks can produce the same payload. */
  lemma WifiPayloadNotInjective(ssid: string, password: string, encryption: string)
    requires Trim(ssid) != ""
    ensures WifiPayload(ssid + ";T:" + encryption + ";P:" + password, "", encryption) ==
            WifiPayload(ssid, password + ";T:" + encryption, encryption)
  {
    var forged := ssid + ";T:" + encryption + ";P:" + password;
    ForgedNameNonBlank(ssid, password, encryption);
    WifiPayloadUnfold(forged, "", encryption);
    WifiPayloadUnfold(ssid, password + ";T:" + encryption, encryption);
    ForgedPayloadsAgree(ssid, password, encryption);
  }

  /** The forged network name keeps the real name's visible character. */
  lemma ForgedNameNonBlank(ssid: string, password: string, encryption: string)
    requires Trim(ssid) != ""
    ensures Trim(ssid + ";T:" + encryption + ";P:" + password) != ""
  {
    StartsWithAppend(ssid, ";T:");
    StartsWithExtend(ssid + ";T:", encryption, ssid);
    StartsWithExtend(ssid + ";T:" + encryption, ";P:", ssid);
    StartsWithExtend(ssid + ";T:" + encryption + ";P:", password, ssid);
    NonBlankExtended(ssid, ssid + ";T:" + encryption + ";P:" + password);
  }

  /** The two payload texts above, written out, are the same string. */
  lemma ForgedPayloadsAgree(ssid: string, password: string, encryption: string)
    ensures "WIFI:S:" + (ssid + ";T:" + encryption + ";P:" + password) + ";T:" + encryption + ";" + "" + ";" ==
            "WIFI:S:" + ssid + ";T:" + encryption + ";" + ("P:" + (password + ";T:" + encryption) + ";") + ";"
  {
    var head := "WIFI:S:" + ssid + ";T:" + encryption;
    var body := ";P:" + password + (";T:" + encryption + ";;");
    assert "WIFI:S:" + (ssid + ";T:" + encryption + ";P:" + password) == head + ";P:" + password;
    assert "P:" + (password + ";T:" + encryption) + ";" + ";" == "P:" + password + (";T:" + encryption + ";;");
  }

  // ---- mailto ----

  /** The header fields for an already trimmed subject and body: subject first, each only when non-empty. */
  function MailtoParams(subject: string, body: string): (ps: seq<string>)
    ensures |ps| <= 2
    ensures |ps| == 0 <==> subject == "" && body == ""
    ensures |ps| == (if subject != "" then 1 else 0) + (if body != "" then 1 else 0)
    ensures subject != "" ==> ps[0] == "subject=" + Encode(subject)
    ensures body != "" ==> ps[|ps| - 1] == "body=" + Encode(body)
    ensures forall i :: 0 <= i < |ps| ==> '&' !in ps[i]
  {
    var sp := "subject=" + Encode(subject);
    var bp := "body=" + Encode(body);
    FieldWithoutAmpersand("subject=", subject);
    FieldWithoutAmpersand("body=", body);
    if subject == "" then (if body == "" then [] else [bp])
    else if body == "" then [sp]
    else [sp, bp]
  }

  /** A field name and a percent-encoded value hold no `&`. */
  lemma FieldWithoutAmpersand(name: string, s: string)
    requires '&' !in name
    ensures '&' !in name + Encode(s)
  {
    EncodedHasNoDelimiters(s);
  }

  /** `mailto:` and the recipient, then `?` and the fields joined by `&` when there are any. */
  function MailtoUri(to: string, ps: seq<string>): (r: string)
    ensures StartsWith(r, "mailto:" + to)
    ensures ps == [] ==> r == "mailto:" + to
  {
    var head := "mailto:" + to;
    var r := head + (if |ps| > 0 then "?" + Join(ps, "&") else "");
    assert r[..|head|] == head;
    r
  }

  /**
    `generateEmailQRData`: empty when the recipient is blank; otherwise the
    `mailto:` URI of the trimmed recipient, subject and body.
  */
  function EmailPayload(to: string, subject: string, body: string): (r: string)
    ensures r == "" <==> Trim(to) == ""
  {
    if Trim(to) == "" then "" else MailtoUri(Trim(to), MailtoParams(Trim(subject), Trim(body)))
  }

  lemma EmailPayloadUnfold(to: string, subject: string, body: string)
    requires Trim(to) != ""
    ensures EmailPayload(to, subject, body) == MailtoUri(Trim(to), MailtoParams(Trim(subject), Trim(body)))
  {
  }

  datatype MailtoFields = MailtoFields(to: string, subject: string, body: string)

  /** The raw value of the first `name=value` field. */
  function ParamValue(params: seq<string>, name: string): Option<string> {
    if params == [] then None
    else if StartsWith(params[0], name + "=") then Some(params[0][|name| + 1..])
    else ParamValue(params[1..], name)
  }

  /** A header field's decoded value, the empty string when the field is absent. */
  function DecodedParam(params: seq<string>, name: string): Option<string> {
    match ParamValue(params, name)
    case None => Some("")
    case Some(v) => Decode(v)
  }

  /** Reads a `mailto:` URI of the shape `EmailPayload` writes: recipient, then decoded subject and body. */
  function ParseMailto(uri: string): Option<MailtoFields> {
    if !StartsWith(uri, "mailto:") then None
    else
      var rest := uri[7..];
      if '?' !in rest then Some(MailtoFields(rest, "", ""))
      else
        var q := IndexOf(rest, '?');
        FieldsFromQuery(rest[..q], Split(rest[q + 1..], '&'))
  }

  /** The recipient with the decoded subject and body of the query's fields; none when a value does not decode. */
  function FieldsFromQuery(to: string, params: seq<string>): Option<MailtoFields> {
    var subject := DecodedParam(params, "subject");
    var body := DecodedParam(params, "body");
    if subject.None? || body.None? then None
    else Some(MailtoFields(to, subject.value, body.value))
  }

  lemma ParamValueHead(p: string, rest: seq<string>, name: string)
    requires StartsWith(p, name + "=")
    ensures ParamValue([p] + rest, name) == Some(p[|name| + 1..])
  {
  }

  lemma ParamValueSkip(p: string, rest: seq<string>, name: string)
    requires !StartsWith(p, name + "=")
    ensures ParamValue([p] + rest, name) == ParamValue(rest, name)
  {
    assert ([p] + rest)[1..] == rest;
  }

  /** The subject field holds the encoded subject and is never taken for the body. */
  lemma SubjectField(s: string)
    ensures StartsWith("subject=" + Encode(s), "subject=") && ("subject=" + Encode(s))[8..] == Encode(s)
    ensures !StartsWith("subject=" + Encode(s), "body=")
  {
    var p := "subject=" + Encode(s);
    assert p[..8] == "subject=" && p[8..] == Encode(s);
    assert p[0] == 's';
  }

  /** The body field holds the encoded body and is never taken for the subject. */
  lemma BodyField(b: string)
    ensures StartsWith("body=" + Encode(b), "body=") && ("body=" + Encode(b))[5..] == Encode(b)
    ensures !StartsWith("body=" + Encode(b), "subject=")
  {
    var p := "body=" + Encode(b);
    assert p[..5] == "body=" && p[5..] == Encode(b);
    assert p[0] == 'b';
  }

  /** The raw `subject` value of the header fields: the encoded subject, or none when it is empty. */
  lemma SubjectLookup(s: string, b: string)
    ensures ParamValue(MailtoParams(s, b), "subject") == if s == "" then None else Some(Encode(s))
  {
    SubjectField(s);
    BodyField(b);
    var none: seq<string> := [];
    var p0 := "subject=" + Encode(s);
    var p1 := "body=" + Encode(b);
    if s != "" {
      assert MailtoParams(s, b) == [p0] + (if b != "" then [p1] else none);
      ParamValueHead(p0, if b != "" then [p1] else none, "subject");
    } else if b != "" {
      assert MailtoParams(s, b) == [p1] + none;
      ParamValueSkip(p1, none, "subject");
    } else {
      assert MailtoParams(s, b) == none;
    }
  }

  /** The raw `body` value of the header fields: the encoded body, or none when it is empty. */
  lemma BodyLookup(s: string, b: string)
    ensures ParamValue(MailtoParams(s, b), "body") == if b == "" then None else Some(Encode(b))
  {
    SubjectField(s);
    BodyField(b);
    var none: seq<string> := [];
    var p0 := "subject=" + Encode(s);
    var p1 := "body=" + Encode(b);
    var tail := if b != "" then [p1] else none;
    if b != "" {
      ParamValueHead(p1, none, "body");
      assert tail == [p1] + none;
    }
    if s != "" {
      assert MailtoParams(s, b) == [p0] + tail;
      ParamValueSkip(p0, tail, "body");
    } else {
      assert MailtoParams(s, b) == tail;
    }
  }

  /** Each header value decodes back to the text it was built from, and an absent field reads as empty. */
  lemma ParamLookups(s: string, b: string)
    ensures DecodedParam(MailtoParams(s, b), "subject") == Some(s)
    ensures DecodedParam(MailtoParams(s, b), "body") == Some(b)
  {
    SubjectLookup(s, b);
    BodyLookup(s, b);
    DecodeEncode(s);
    DecodeEncode(b);
  }

  /** A `mailto:` URI over fields without `&` reads back as the recipient and the fields' decoded values. */
  lemma ParseMailtoUri(t: string, ps: seq<string>)
    requires '?' !in t
    requires forall i :: 0 <= i < |ps| ==> '&' !in ps[i]
    ensures ps == [] ==> ParseMailto(MailtoUri(t, ps)) == Some(MailtoFields(t, "", ""))
    ensures ps != [] ==> ParseMailto(MailtoUri(t, ps)) == FieldsFromQuery(t, ps)
  {
    var r := MailtoUri(t, ps);
    assert r[..7] == "mailto:";
    if ps == [] {
      assert r[7..] == t;
    } else {
      var j := Join(ps, "&");
      var rest := t + ['?'] + j;
      assert r[7..] == rest;
      IndexOfAfterPrefix(t, '?', j);
      assert rest[|t| + 1..] == j;
      assert rest[..|t|] == t;
      SplitJoin(ps, '&');
      assert Split(rest[|t| + 1..], '&') == ps;
    }
  }

  /** For a recipient without `?`, the URI reads back as the recipient, subject and body it was built from. */
  lemma MailtoRoundTrip(t: string, s: string, b: string)
    requires '?' !in t
    ensures ParseMailto(MailtoUri(t, MailtoParams(s, b))) == Some(MailtoFields(t, s, b))
  {
    ParamLookups(s, b);
    ParseMailtoUri(t, MailtoParams(s, b));
  }

  /**
    When the trimmed recipient has no `?`, the payload reads back as the
    trimmed recipient, subject and body: the header values survive
    percent-encoding.
  */
  lemma EmailRoundTrip(to: string, subject: string, body: string)
    requires Trim(to) != "" && '?' !in Trim(to)
    ensures ParseMailto(EmailPayload(to, subject, body)) == Some(MailtoFields(Trim(to), Trim(subject), Trim(body)))
  {
    EmailPayloadUnfold(to, subject, body);
    MailtoRoundTrip(Trim(to), Trim(subject), Trim(body));
  }

  /**
    An address with a subject of letters and digits and no body gives
    `mailto:<address>?subject=<subject>`, the subject unescaped.
  */
  lemma EmailPayloadSubjectOnly(to: string, subject: string)
    requires to != [] && !IsJsSpace(to[0]) && !IsJsSpace(to[|to| - 1])
    requires subject != [] && !IsJsSpace(subject[0]) && !IsJsSpace(subject[|subject| - 1])
    requires forall i :: 0 <= i < |subject| ==> IsUnreserved(subject[i])
    ensures EmailPayload(to, subject, "") == "mailto:" + to + "?subject=" + subject
  {
    TrimUnpadded(to);
    TrimUnpadded(subject);
    assert Trim("") == "" by { assert AllSpace(""); }
    EncodeUnreserved(subject);
    EmailPayloadUnfold(to, subject, "");
    SubjectOnlyUri(to, subject);
  }

  /** With a subject that encodes to itself and no body, the URI carries the subject as is. */
  lemma SubjectOnlyUri(to: string, subject: string)
    requires subject != "" && Encode(subject) == subject
    ensures MailtoUri(to, MailtoParams(subject, "")) == "mailto:" + to + "?subject=" + subject
  {
    var ps := MailtoParams(subject, "");
    assert ps == ["subject=" + subject];
    assert Join(ps, "&") == "subject=" + subject;
    assert "mailto:" + to + ("?" + ("subject=" + subject)) == "mailto:" + to + "?subject=" + subject;
  }


  // ---- appearance ----

  datatype Customization = Customization(
    foregroundColor: string,
    backgroundColor: string,
    margin: string,
    hasMargin: bool,
    isTransparent: bool,
    eyeStyle: string,
    hasLogo: bool,
    logoUrl: string,
    logoSize: string)

  /** The settings a new generator starts with. */
  const InitialCustomization: Customization :=
    Customization("#000000", "#FFFFFF", "1", true, false, "square", false, "", "20")

  /** The settings `resetCustomization` writes. */
  const ResetCustomization: Customization :=
    Customization("#000000", "#FFFFFF", "4", true, false, "square", false, "", "20")

  /** Resetting does not restore the initial settings: the margin becomes "4" where it started as "1". */
  lemma ResetDiffersFromInitialOnlyInMargin()
    ensures ResetCustomization == InitialCustomization.(margin := "4")
    ensures ResetCustomization != InitialCustomization
  {
  }

  /** `handleThemeChange`: both colours set, transparency off, everything else kept. */
  function WithTheme(c: Customization, fg: string, bg: string): (r: Customization)
    ensures r.foregroundColor == fg && r.backgroundColor == bg && !r.isTransparent
    ensures r.margin == c.margin && r.hasMargin == c.hasMargin && r.eyeStyle == c.eyeStyle
    ensures r.hasLogo == c.hasLogo && r.logoUrl == c.logoUrl && r.logoSize == c.logoSize
  {
    c.(foregroundColor := fg, backgroundColor := bg, isTransparent := false)
  }

  /** `handleMarginChange`: the margin set and switched on unless it is "0", everything else kept. */
  function WithMargin(c: Customization, m: string): (r: Customization)
    ensures r.margin == m && (r.hasMargin <==> m != "0")
    ensures r.foregroundColor == c.foregroundColor && r.backgroundColor == c.backgroundColor
    ensures r.isTransparent == c.isTransparent && r.eyeStyle == c.eyeStyle
    ensures r.hasLogo == c.hasLogo && r.logoUrl == c.logoUrl && r.logoSize == c.logoSize
  {
    c.(margin := m, hasMargin := m != "0")
  }

  /** The two updates touch disjoint fields, so their order does not matter; each is idempotent. */
  lemma UpdatesCommute(c: Customization, fg: string, bg: string, m: string)
    ensures WithMargin(WithTheme(c, fg, bg), m) == WithTheme(WithMargin(c, m), fg, bg)
    ensures WithTheme(WithTheme(c, fg, bg), fg, bg) == WithTheme(c, fg, bg)
    ensures WithMargin(WithMargin(c, m), m) == WithMargin(c, m)
  {
  }

  // ---- the API URL ----

  const QrApiBase: string := "https://api.qrserver.com/v1/create-qr-code/?"

  /** The margin the URL asks for: the chosen one when margins are on, else "0". */
  function MarginParam(c: Customization): (m: string)
    ensures m == "0" <==> !c.hasMargin || c.margin == "0"
    ensures m != "0" ==> m == c.margin
  {
    if c.hasMargin then c.margin else "0"
  }

  /**
    The background the URL asks for: "transparent", or the colour without its
    first `#` (a colour written `#RRGGBB` loses its leading `#`).
  */
  function BackgroundParam(c: Customization): (bg: string)
    ensures c.isTransparent ==> bg == "transparent"
    ensures !c.isTransparent && StartsWith(c.backgroundColor, "#") ==> bg == c.backgroundColor[1..]
    ensures !c.isTransparent && '#' !in c.backgroundColor ==> bg == c.backgroundColor
  {
    assert StartsWith(c.backgroundColor, "#") ==> c.backgroundColor[0] == '#';
    if c.isTransparent then "transparent" else RemoveFirst(c.backgroundColor, '#')
  }

  /** The query parameters' names with their `=`, in the order the URL carries them. */
  const QrParamNames: seq<string> := ["size=", "data=", "format=", "color=", "bgcolor=", "margin=", "qzone="]

  /** The query parameters of the URL, in order. */
  function QrUrlParams(size: string, data: string, c: Customization): (ps: seq<string>)
    ensures |ps| == |QrParamNames|
    ensures ps[1] == "data=" + Encode(data) && ps[5] == "margin=" + MarginParam(c)
  {
    [ "size=" + size + "x" + size,
      "data=" + Encode(data),
      "format=png",
      "color=" + RemoveFirst(c.foregroundColor, '#'),
      "bgcolor=" + BackgroundParam(c),
      "margin=" + MarginParam(c),
      "qzone=1" ]
  }

  /** Each parameter starts with its name and `=`, in the order of `QrParamNames`. */
  lemma QrUrlParamsNamed(size: string, data: string, c: Customization)
    ensures forall i :: 0 <= i < |QrParamNames| ==> StartsWith(QrUrlParams(size, data, c)[i], QrParamNames[i])
  {
    var ps := QrUrlParams(size, data, c);
    StartsWithAppend("size=", size);
    StartsWithExtend("size=" + size, "x", "size=");
    StartsWithExtend("size=" + size + "x", size, "size=");
    StartsWithAppend("data=", Encode(data));
    StartsWithAppend("color=", RemoveFirst(c.foregroundColor, '#'));
    StartsWithAppend("bgcolor=", BackgroundParam(c));
    StartsWithAppend("margin=", MarginParam(c));
    assert ps[2][..7] == "format=" && ps[6][..6] == "qzone=";
    assert QrParamNames == [ps[0][..5], ps[1][..5], ps[2][..7], ps[3][..6], ps[4][..8], ps[5][..7], ps[6][..6]];
  }

  /** A transparent background is asked for by name, whatever the background colour. */
  lemma TransparentBackgroundParam(size: string, data: string, c: Customization)
    requires c.isTransparent
    ensures QrUrlParams(size, data, c)[4] == "bgcolor=transparent"
  {
    assert BackgroundParam(c) == "transparent";
    assert "bgcolor=" + "transparent" == "bgcolor=transparent";
  }

  /**
    `buildQrUrl`: the API base, then the parameters in the order the source
    appends them, separated by `&`.
  */
  function BuildQrUrl(size: string, data: string, c: Customization): (url: string)
    ensures StartsWith(url, QrApiBase)
  {
    var url := QrApiBase + Join(QrUrlParams(size, data, c), "&");
    assert url[..|QrApiBase|] == QrApiBase;
    url
  }

  lemma JoinSeven(p: seq<string>, sep: string)
    requires |p| == 7
    ensures Join(p, sep) == p[0] + sep + (p[1] + sep + (p[2] + sep + (p[3] + sep + (p[4] + sep + (p[5] + sep + p[6])))))
  {
    assert Join(p[6..], sep) == p[6];
    assert Join(p[5..], sep) == p[5] + sep + p[6] by { assert p[5..][1..] == p[6..]; }
    assert Join(p[4..], sep) == p[4] + sep + Join(p[5..], sep) by { assert p[4..][1..] == p[5..]; }
    assert Join(p[3..], sep) == p[3] + sep + Join(p[4..], sep) by { assert p[3..][1..] == p[4..]; }
    assert Join(p[2..], sep) == p[2] + sep + Join(p[3..], sep) by { assert p[2..][1..] == p[3..]; }
    assert Join(p[1..], sep) == p[1] + sep + Join(p[2..], sep) by { assert p[1..][1..] == p[2..]; }
  }

  lemma ParamsHaveNoAmpersand(size: string, data: string, c: Customization)
    requires '&' !in size && '&' !in c.foregroundColor && '&' !in c.backgroundColor && '&' !in c.margin
    ensures forall i :: 0 <= i < 7 ==> '&' !in QrUrlParams(size, data, c)[i]
  {
    var p := QrUrlParams(size, data, c);
    NoAmpersandJoined("size=", size);
    NoAmpersandJoined("size=" + size, "x");
    NoAmpersandJoined("size=" + size + "x", size);
    FieldWithoutAmpersand("data=", data);
    RemoveFirstKeeps(c.foregroundColor, '#', '&');
    NoAmpersandJoined("color=", RemoveFirst(c.foregroundColor, '#'));
    RemoveFirstKeeps(c.backgroundColor, '#', '&');
    NoAmpersandJoined("bgcolor=", BackgroundParam(c));
    NoAmpersandJoined("margin=", MarginParam(c));
  }

  /** Two texts without `&` joined hold none. */
  lemma NoAmpersandJoined(a: string, b: string)
    requires '&' !in a && '&' !in b
    ensures '&' !in a + b
  {
  }

  lemma DataParamDecodes(size: string, data: string, c: Customization)
    ensures DecodedParam(QrUrlParams(size, data, c), "data") == Some(data)
  {
    var p := QrUrlParams(size, data, c);
    var d := "data=" + Encode(data);
    assert "data" + "=" == "data=";
    assert !StartsWith(p[0], "data=") by { assert p[0][0] == 's'; }
    assert ParamValue(p, "data") == ParamValue(p[1..], "data");
    StartsWithAppend("data=", Encode(data));
    assert p[1..][0] == d;
    assert d[5..] == Encode(data);
    assert ParamValue(p[1..], "data") == Some(Encode(data));
    DecodeEncode(data);
  }

  /**
    When the size and colours have no `&`, splitting the query on `&` gives
    the parameters in their order, and the `data` parameter decodes to the
    encoded text.
  */
  lemma BuildQrUrlQuery(size: string, data: string, c: Customization)
    requires '&' !in size && '&' !in c.foregroundColor && '&' !in c.backgroundColor && '&' !in c.margin
    ensures Split(BuildQrUrl(size, data, c)[|QrApiBase|..], '&') == QrUrlParams(size, data, c)
    ensures DecodedParam(QrUrlParams(size, data, c), "data") == Some(data)
  {
    var p := QrUrlParams(size, data, c);
    assert (QrApiBase + Join(p, "&"))[|QrApiBase|..] == Join(p, "&");
    ParamsHaveNoAmpersand(size, data, c);
    SplitJoin(p, '&');
    DataParamDecodes(size, data, c);
  }

  /** The first `#` of a colour that starts with one is dropped. */
  lemma StripHash(s: string)
    requires s != [] && s[0] == '#'
    ensures RemoveFirst(s, '#') == s[1..]
  {
  }

  lemma ExampleColors()
    ensures RemoveFirst(InitialCustomization.foregroundColor, '#') == "000000"
    ensures BackgroundParam(InitialCustomization) == "FFFFFF"
    ensures MarginParam(InitialCustomization) == "1"
  {
    StripHash("#000000");
    StripHash("#FFFFFF");
    assert "#000000"[1..] == "000000";
    assert "#FFFFFF"[1..] == "FFFFFF";
  }

  /** The size and data parameters for a 250 px code of "hello". */
  lemma ExampleSizeAndData()
    ensures "size=" + "250" + "x" + "250" == "size=250x250"
    ensures "data=" + Encode("hello") == "data=hello"
  {
    EncodeUnreserved("hello");
  }

  /** The colour parameter of the initial settings: black. */
  lemma ExampleColorParam()
    ensures "color=" + RemoveFirst(InitialCustomization.foregroundColor, '#') == "color=000000"
  {
    assert "color=" + "000000" == "color=000000";
    ExampleColors();
  }

  /** The background parameter of the initial settings: white. */
  lemma ExampleBackgroundParam()
    ensures "bgcolor=" + BackgroundParam(InitialCustomization) == "bgcolor=FFFFFF"
  {
    assert "bgcolor=" + "FFFFFF" == "bgcolor=FFFFFF";
    ExampleColors();
  }

  /** The margin parameter of the initial settings: 1. */
  lemma ExampleMarginParam()
    ensures "margin=" + MarginParam(InitialCustomization) == "margin=1"
  {
    assert "margin=" + "1" == "margin=1";
    ExampleColors();
  }

  lemma ExampleParams()
    ensures QrUrlParams("250", "hello", InitialCustomization) ==
      ["size=250x250", "data=hello", "format=png", "color=000000", "bgcolor=FFFFFF", "margin=1", "qzone=1"]
  {
    ExampleSizeAndData();
    ExampleColorParam();
    ExampleBackgroundParam();
    ExampleMarginParam();
  }

  /** For plain text and the initial settings the query holds exactly the documented parameters, in order. */
  lemma BuildQrUrlExample()
    ensures StartsWith(BuildQrUrl("250", "hello", InitialCustomization), QrApiBase)
    ensures Split(BuildQrUrl("250", "hello", InitialCustomization)[|QrApiBase|..], '&') ==
      ["size=250x250", "data=hello", "format=png", "color=000000", "bgcolor=FFFFFF", "margin=1", "qzone=1"]
  {
    ExampleParams();
    InitialHasNoAmpersand();
    BuildQrUrlQuery("250", "hello", InitialCustomization);
  }

  /** The example size and the initial colours and margin hold no `&`. */
  lemma InitialHasNoAmpersand()
    ensures '&' !in "250" && '&' !in InitialCustomization.foregroundColor
    ensures '&' !in InitialCustomization.backgroundColor && '&' !in InitialCustomization.margin
  {
    var c := InitialCustomization;
    assert forall k :: 0 <= k < 7 ==> c.foregroundColor[k] in "#0" && c.backgroundColor[k] in "#F";
  }

  /** After choosing a margin option, the URL asks for exactly that margin. */
  lemma MarginParamIsChosenMargin(c: Customization, m: string)
    ensures MarginParam(WithMargin(c, m)) == m
  {
  }

  /** After applying a theme, the URL carries its colours (first `#` dropped), never a transparent background. */
  lemma ThemeColorsReachUrl(c: Customization, fg: string, bg: string)
    ensures BackgroundParam(WithTheme(c, fg, bg)) == RemoveFirst(bg, '#')
    ensures QrUrlParams("270", "x", WithTheme(c, fg, bg))[3] == "color=" + RemoveFirst(fg, '#')
  {
  }

  // ---- validation ----

  datatype FormFields = FormFields(
    inputValue: string,
    wifiSSID: string,
    passwordValue: string,
    encryptionType: string,
    emailTo: string,
    emailSubject: string,
    emailBody: string)

  /** What a generate button does with the form: refuse with an alert, or go on with this data. */
  datatype Validation = Rejected(alert: string) | Accepted(data: string)

  const WifiAlert: string := "Please enter WiFi Network Name (SSID)"
  const EmailAlert: string := "Please enter at least an email address"
  const InputAlert: string := "Please enter some data to generate QR code"

  /**
    The check both `generateQRCode` and `handleOneClickDownload` begin with:
    the WiFi and email tabs need their builder to produce something, other
    tabs need a non-blank input, which is then used untrimmed.
  */
  function Validate(tab: string, f: FormFields): (v: Validation)
    ensures v.Accepted? ==> v.data != ""
    ensures v.Rejected? ==> v.alert == (if tab == "WIFI" then WifiAlert else if tab == "EMAIL" then EmailAlert else InputAlert)
    ensures tab != "WIFI" && tab != "EMAIL" ==> (v.Accepted? <==> !AllSpace(f.inputValue))
    ensures tab != "WIFI" && tab != "EMAIL" && v.Accepted? ==> v.data == f.inputValue
  {
    if tab == "WIFI" then
      var w := WifiPayload(f.wifiSSID, f.passwordValue, f.encryptionType);
      if w == "" then Rejected(WifiAlert) else Accepted(w)
    else if tab == "EMAIL" then
      var e := EmailPayload(f.emailTo, f.emailSubject, f.emailBody);
      if e == "" then Rejected(EmailAlert) else Accepted(e)
    else if Trim(f.inputValue) == "" then Rejected(InputAlert)
    else Accepted(f.inputValue)
  }

  /**
    The WiFi tab is refused exactly when the network name is blank, the
    email tab when the recipient is blank, and any other tab when the input
    is blank; accepted data is never empty, and outside the WiFi and email
    tabs it is the input as typed.
  */
  lemma ValidateCases(tab: string, f: FormFields)
    ensures var v := Validate(tab, f);
      && (tab == "WIFI" ==> v == (if Trim(f.wifiSSID) == "" then Rejected(WifiAlert) else Accepted(WifiPayload(f.wifiSSID, f.passwordValue, f.encryptionType))))
      && (tab == "EMAIL" ==> v == (if Trim(f.emailTo) == "" then Rejected(EmailAlert) else Accepted(EmailPayload(f.emailTo, f.emailSubject, f.emailBody))))
      && (tab != "WIFI" && tab != "EMAIL" ==> v == (if Trim(f.inputValue) == "" then Rejected(InputAlert) else Accepted(f.inputValue)))
      && (v.Accepted? ==> v.data != "")
  {
  }

  /** Validation refuses exactly when the form's button for it would be disabled, busy flags aside. */
  lemma ValidateAgreesWithButtons(tab: string, f: FormFields)
    ensures Validate(tab, f).Rejected? <==> GenerateDisabled(false, tab, f.emailTo, f.wifiSSID, f.inputValue)
    ensures Validate(tab, f).Rejected? <==> DownloadDisabled(false, tab, f.emailTo, f.wifiSSID, f.inputValue)
  {
    ValidateCases(tab, f);
  }

  // ---- history ----

  /** The extra fields saved with a history item, by tab. */
  datatype Details =
    | EmailDetails(emailTo: string, emailSubject: string, emailBody: string)
    | WifiDetails(wifiSSID: string, passwordValue: string, hasPassword: bool, encryptionType: string)
    | LinkDetails(url: string, linkPreview: string)
    | TextDetails(text: string, textPreview: string)
    | DataDetails(data: string, dataPreview: string)
    | NoDetails

  /** The first 50 characters and "..." for a longer text, the text itself otherwise. */
  function Preview(s: string): (r: string)
    ensures |s| <= 50 ==> r == s
    ensures |s| > 50 ==> |r| == 53 && StartsWith(s, r[..50]) && EndsWith(r, "...")
  {
    if |s| > 50 then
      var r := s[..50] + "...";
      assert r[..50] == s[..50];
      assert r[|r| - 3..] == "...";
      r
    else s
  }

  /** `getHistoryDetails` as written: it looks for a tab called "MORE", so "DATA" gets no details. */
  function HistoryDetails(tab: string, f: FormFields): (d: Details)
    ensures d == NoDetails <==> tab !in ["EMAIL", "WIFI", "LINK", "TEXT", "MORE"]
    ensures d.EmailDetails? <==> tab == "EMAIL"
    ensures d.WifiDetails? <==> tab == "WIFI"
    ensures d.LinkDetails? <==> tab == "LINK"
    ensures d.TextDetails? <==> tab == "TEXT"
    ensures d.DataDetails? <==> tab == "MORE"
    ensures d.EmailDetails? ==> d.emailTo == f.emailTo && d.emailSubject == f.emailSubject && d.emailBody == f.emailBody
    ensures d.WifiDetails? ==>
      && d.wifiSSID == f.wifiSSID && d.passwordValue == f.passwordValue
      && (d.hasPassword <==> f.passwordValue != "") && d.encryptionType == f.encryptionType
    ensures d.LinkDetails? ==> d.url == f.inputValue && d.linkPreview == Preview(f.inputValue)
    ensures d.TextDetails? ==> d.text == f.inputValue && d.textPreview == Preview(f.inputValue)
    ensures d.DataDetails? ==> d.data == f.inputValue && d.dataPreview == Preview(f.inputValue)
  {
    match tab
    case "EMAIL" => EmailDetails(f.emailTo, f.emailSubject, f.emailBody)
    case "WIFI" => WifiDetails(f.wifiSSID, f.passwordValue, f.passwordValue != "", f.encryptionType)
    case "LINK" => LinkDetails(f.inputValue, Preview(f.inputValue))
    case "TEXT" => TextDetails(f.inputValue, Preview(f.inputValue))
    case "MORE" => DataDetails(f.inputValue, Preview(f.inputValue))
    case _ => NoDetails
  }

  /** The same with the case for the tab the form actually has. */
  function CorrectedHistoryDetails(tab: string, f: FormFields): (d: Details)
    ensures tab != "DATA" ==> d == HistoryDetails(tab, f)
    ensures d == NoDetails <==> tab !in Tabs && tab != "MORE"
    ensures d.DataDetails? <==> tab == "DATA" || tab == "MORE"
    ensures d.DataDetails? ==> d.data == f.inputValue && d.dataPreview == Preview(f.inputValue)
  {
    if tab == "DATA" then DataDetails(f.inputValue, Preview(f.inputValue)) else HistoryDetails(tab, f)
  }

  /** As written, items from the DATA tab carry no details. */
  lemma DataTabGetsNoDetails(f: FormFields)
    ensures HistoryDetails("DATA", f) == NoDetails
  {
  }

  /** Corrected, every tab of the form gets details, and DATA keeps its input. */
  lemma CorrectedDetailsCoverEveryTab(f: FormFields)
    ensures forall i :: 0 <= i < |Tabs| ==> CorrectedHistoryDetails(Tabs[i], f) != NoDetails
    ensures CorrectedHistoryDetails("DATA", f).data == f.inputValue
  {
  }

  /** A generated code as saved in the history. */
  datatype GeneratedItem = GeneratedItem(
    id: int,
    timestamp: int,
    kind: string,
    data: string,
    size: string,
    qrUrl: string,
    customization: Customization,
    details: Details)

  const GeneratedCapacity: nat := 50

  function Min(a: nat, b: nat): nat {
    if a <= b then a else b
  }

  /** The generator's `addToHistory`: the item first, then at most 49 of the previous items, in order. */
  function AddGenerated(h: seq<GeneratedItem>, item: GeneratedItem): (r: seq<GeneratedItem>)
    ensures |r| == Min(|h| + 1, GeneratedCapacity)
    ensures r[0] == item
    ensures forall i :: 1 <= i < |r| ==> r[i] == h[i - 1]
  {
    [item] + h[..Min(|h|, GeneratedCapacity - 1)]
  }

  /** The list never grows past 50, however many items are added. */
  lemma {:induction false} AddManyStaysCapped(h: seq<GeneratedItem>, items: seq<GeneratedItem>)
    requires |h| <= GeneratedCapacity
    ensures |AddAll(h, items)| <= GeneratedCapacity
    ensures |items| > 0 ==> AddAll(h, items)[0] == items[|items| - 1]
    decreases |items|
  {
    if |items| > 0 {
      AddManyStaysCapped(h, items[..|items| - 1]);
    }
  }

  /** Adds the items one after another, oldest first. */
  function AddAll(h: seq<GeneratedItem>, items: seq<GeneratedItem>): seq<GeneratedItem>
    decreases |items|
  {
    if items == [] then h else AddGenerated(AddAll(h, items[..|items| - 1]), items[|items| - 1])
  }

  /** `deleteHistoryItem` once confirmed: the items with other ids, in order. */
  function RemoveGenerated(h: seq<GeneratedItem>, id: int): (r: seq<GeneratedItem>)
    ensures forall e :: e in r <==> e in h && e.id != id
    ensures IsSubsequence(r, h)
    ensures |r| <= |h|
    ensures |r| == |h| - CountGenId(h, id)
    ensures (forall i :: 0 <= i < |h| ==> h[i].id != id) ==> r == h
  {
    if h == [] then []
    else
      var rest := RemoveGenerated(h[1..], id);
      assert h == [h[0]] + h[1..];
      assert (forall i :: 0 <= i < |h| ==> h[i].id != id) ==> forall i :: 0 <= i < |h[1..]| ==> h[1..][i].id != id by {
        if forall i :: 0 <= i < |h| ==> h[i].id != id {
          forall i | 0 <= i < |h[1..]| ensures h[1..][i].id != id {
            assert h[1..][i] == h[i + 1];
          }
        }
      }
      if h[0].id == id then rest else [h[0]] + rest
  }

  /** How many items carry this id. */
  function CountGenId(h: seq<GeneratedItem>, id: int): (n: nat)
    ensures n <= |h|
    ensures n == 0 <==> forall i :: 0 <= i < |h| ==> h[i].id != id
  {
    if h == [] then 0 else (if h[0].id == id then 1 else 0) + CountGenId(h[1..], id)
  }

  // ---- the details dialog ----

  /** JavaScript `a || b` on strings. */
  function Or(a: string, b: string): string {
    if a != "" then a else b
  }

  /** The password line: the saved password, else whether one existed. */
  function PasswordLine(d: Details): (line: string)
    ensures line != ""
    ensures !d.WifiDetails? ==> line == "No password"
    ensures d.WifiDetails? && d.passwordValue != "" ==> line == d.passwordValue
    ensures d.WifiDetails? && d.passwordValue == "" ==>
      line == (if d.hasPassword then "Password exists but not shown" else "No password")
  {
    if d.WifiDetails? then Or(d.passwordValue, if d.hasPassword then "Password exists but not shown" else "No password")
    else "No password"
  }

  /** `History_Info_Button` as written: it looks for a "MORE" item type, so DATA items are "Unknown QR type". */
  function InfoText(item: GeneratedItem): (text: string)
    ensures text == "Unknown QR type" <==> item.kind !in ["WIFI", "EMAIL", "LINK", "TEXT", "MORE"]
    ensures item.kind == "WIFI" ==> StartsWith(text, "WiFi Details:")
    ensures item.kind == "EMAIL" ==> StartsWith(text, "Email Details:")
    ensures item.kind == "LINK" ==> StartsWith(text, "Link: ")
    ensures item.kind == "TEXT" ==> StartsWith(text, "Text: ")
    ensures item.kind == "MORE" ==> StartsWith(text, "Data: ")
  {
    var d := item.details;
    assert "Unknown QR type"[0] == 'U';
    if item.kind == "WIFI" then
      "WiFi Details:\nSSID: " + (if d.WifiDetails? then Or(d.wifiSSID, "Not found") else "Not found")
      + "\nPassword: " + PasswordLine(d)
      + "\nEncryption: " + (if d.WifiDetails? then Or(d.encryptionType, "Not found") else "Not found")
    else if item.kind == "EMAIL" then
      "Email Details:\nTo: " + (if d.EmailDetails? then Or(d.emailTo, "Not found") else "Not found")
      + "\nSubject: " + (if d.EmailDetails? then Or(d.emailSubject, "None") else "None")
      + "\nBody: " + (if d.EmailDetails? then Or(d.emailBody, "None") else "None")
    else if item.kind == "LINK" then
      "Link: " + (if d.LinkDetails? then Or(d.url, Or(d.linkPreview, "Not found")) else "Not found")
    else if item.kind == "TEXT" then
      "Text: " + (if d.TextDetails? then Or(d.text, Or(d.textPreview, "Not found")) else "Not found")
    else if item.kind == "MORE" then
      "Data: " + (if d.DataDetails? then Or(d.data, Or(d.dataPreview, "Not found")) else "Not found")
    else "Unknown QR type"
  }

  /** The dialog with the DATA type in place of "MORE". */
  function CorrectedInfoText(item: GeneratedItem): (text: string)
    ensures item.kind != "DATA" ==> text == InfoText(item)
    ensures text == "Unknown QR type" <==> item.kind !in Tabs && item.kind != "MORE"
    ensures item.kind == "DATA" ==> StartsWith(text, "Data: ")
  {
    if item.kind == "DATA" then InfoText(item.(kind := "MORE")) else InfoText(item)
  }

  /** The item `addToHistory` records for the form as it stands, with the corrected details. */
  function NewItem(now: int, tab: string, data: string, size: string, url: string, c: Customization, f: FormFields): (item: GeneratedItem)
    ensures item.id == now && item.timestamp == now
    ensures item.kind == tab && item.data == data && item.size == size && item.qrUrl == url && item.customization == c
    ensures tab in Tabs ==> item.details != NoDetails
    ensures tab !in Tabs && tab != "MORE" ==> item.details == NoDetails
  {
    GeneratedItem(now, now, tab, data, size, url, c, CorrectedHistoryDetails(tab, f))
  }

  /** As written, asking about a DATA item says "Unknown QR type", even with the corrected details. */
  lemma DataItemInfoIsUnknown(item: GeneratedItem)
    requires item.kind == "DATA"
    ensures InfoText(item) == "Unknown QR type"
  {
  }

  /** Corrected, a DATA item recorded with its details shows its data. */
  lemma CorrectedDataItemInfoShowsData(now: int, data: string, size: string, url: string, c: Customization, f: FormFields)
    requires f.inputValue != ""
    ensures CorrectedInfoText(NewItem(now, "DATA", data, size, url, c, f)) == "Data: " + f.inputValue
  {
  }

  /** A WiFi item's dialog names the network and the saved password. */
  lemma WifiInfoShowsNetwork(now: int, data: string, size: string, url: string, c: Customization, f: FormFields)
    requires f.wifiSSID != "" && f.passwordValue != "" && f.encryptionType != ""
    ensures InfoText(NewItem(now, "WIFI", data, size, url, c, f)) ==
      "WiFi Details:\nSSID: " + f.wifiSSID + "\nPassword: " + f.passwordValue + "\nEncryption: " + f.encryptionType
  {
  }

  // ---- storage ----

  const GeneratorHistoryKey: string := "qrHistory"

  /** The stored text: unparseable, or the items it decodes to. */
  datatype GenBlob = GenUnparseable | GenRecords(items: seq<GeneratedItem>)

  /** The load effect: the parsed items when the key is present and parses; a bad text only logs, the key is kept. */
  function LoadGenerated(store: map<string, GenBlob>): (loaded: Option<seq<GeneratedItem>>)
    ensures loaded.Some? <==> GeneratorHistoryKey in store && store[GeneratorHistoryKey].GenRecords?
    ensures loaded.Some? ==> loaded.value == store[GeneratorHistoryKey].items
  {
    if GeneratorHistoryKey in store && store[GeneratorHistoryKey].GenRecords? then Some(store[GeneratorHistoryKey].items) else None
  }

  /** The history a fresh generator shows after loading. */
  function Reloaded(store: map<string, GenBlob>): seq<GeneratedItem> {
    match LoadGenerated(store)
    case None => []
    case Some(items) => items
  }

  /** The save effect as written: it writes only a non-empty list and otherwise leaves storage alone. */
  function SaveGeneratedAsWritten(h: seq<GeneratedItem>, store: map<string, GenBlob>): (s: map<string, GenBlob>)
    ensures |h| > 0 ==> s == store[GeneratorHistoryKey := GenRecords(h)]
    ensures |h| == 0 ==> s == store
  {
    if |h| > 0 then store[GeneratorHistoryKey := GenRecords(h)] else store
  }

  /** The save effect corrected: an empty list removes the key. */
  function SaveGenerated(h: seq<GeneratedItem>, store: map<string, GenBlob>): (s: map<string, GenBlob>)
    ensures |h| > 0 ==> GeneratorHistoryKey in s && s[GeneratorHistoryKey] == GenRecords(h)
    ensures |h| == 0 ==> GeneratorHistoryKey !in s
    ensures forall k :: k != GeneratorHistoryKey ==> (k in s <==> k in store) && (k in s ==> s[k] == store[k])
  {
    if |h| > 0 then store[GeneratorHistoryKey := GenRecords(h)] else store - {GeneratorHistoryKey}
  }

  /** As written, deleting the only item and reloading brings it back. */
  lemma DeletedLastItemReappears(item: GeneratedItem, store: map<string, GenBlob>)
    requires store == map[GeneratorHistoryKey := GenRecords([item])]
    ensures RemoveGenerated([item], item.id) == []
    ensures Reloaded(SaveGeneratedAsWritten(RemoveGenerated([item], item.id), store)) == [item]
  {
    assert RemoveGenerated([item], item.id) == [] by {
      assert [item][1..] == [];
    }
  }

  /** Corrected, what a reload shows is always the list that was saved. */
  lemma SavedHistoryReloads(h: seq<GeneratedItem>, store: map<string, GenBlob>)
    ensures Reloaded(SaveGenerated(h, store)) == h
  {
  }
}
