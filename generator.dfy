/**
  The generator component's state and handlers: the form fields, the tab
  switch and its clearing effect, the two generate buttons, the download
  button, history deletion, the appearance handlers, and the load and save
  effects that tie the history to storage.
*/
module QrGenerator {
  import opened Wrappers
  import opened Strings
  import opened GeneratorForm
  import opened Payloads

  const DownloadFailedAlert: string := "Failed to download QR code. Please try again."
  const OneClickFailedAlert: string := "Failed to generate and download QR code. Please try again."
  const GenerateFirstAlert: string := "Please generate a QR code first"

  /** What the 500 ms timer of `generateQRCode` closes over: the data and the state at the click. */
  datatype Snapshot = Snapshot(
    data: string,
    tab: string,
    size: string,
    customization: Customization,
    fields: FormFields,
    history: seq<GeneratedItem>)

  class Generator {
    var activeTab: Tab
    var qrUrl: string
    var size: string
    var isGenerating: bool
    var isDownloading: bool
    /** The seven form inputs: the data input and the WiFi and email fields. */
    var form: FormFields
    var history: seq<GeneratedItem>
    var customization: Customization
    var store: map<string, GenBlob>
    /** The generation whose timer has not fired yet. */
    var pending: Option<Snapshot>

    /**
      What the handlers keep true: the tab is one of the five; the fields of
      the tabs not shown are blank; a generation is pending exactly while the
      Generate button spins; a shown URL is an API URL; and a reload of
      storage shows exactly the current history.
    */
    ghost predicate Valid()
      reads this
    {
      && (activeTab != Wifi ==> form.wifiSSID == "" && form.passwordValue == "")
      && (activeTab != Email ==> form.emailTo == "" && form.emailSubject == "" && form.emailBody == "")
      && (activeTab == Wifi || activeTab == Email ==> form.inputValue == "")
      && (isGenerating <==> pending.Some?)
      && (qrUrl != "" ==> StartsWith(qrUrl, QrApiBase))
      && Reloaded(store) == history
    }

    /** Mounting: the initial state, then the load effect, then the save effect on what was loaded. */
    constructor (saved: map<string, GenBlob>)
      ensures Valid()
      ensures activeTab == Text && qrUrl == "" && size == "270"
      ensures !isGenerating && !isDownloading && pending.None?
      ensures form == FormFields("", "", "", "WPA", "", "", "")
      ensures customization == InitialCustomization
      ensures history == Reloaded(saved)
      ensures store == SaveGenerated(Reloaded(saved), saved)
    {
      activeTab := Text;
      qrUrl := "";
      size := "270";
      isGenerating := false;
      isDownloading := false;
      form := FormFields("", "", "", "WPA", "", "", "");
      customization := InitialCustomization;
      pending := None;
      history := [];
      store := saved;
      new;
      var loaded := LoadGenerated(store);
      if loaded.Some? {
        history := loaded.value;
      }
      SaveEffect();
    }

    /**
      The save effect, corrected so that an empty list removes the key; the
      effect as written (`SaveGeneratedAsWritten`) leaves the last stored
      list behind.
    */
    method SaveEffect()
      modifies this`store
      ensures store == SaveGenerated(history, old(store))
    {
      if |history| > 0 {
        store := store[GeneratorHistoryKey := GenRecords(history)];
      } else {
        store := store - {GeneratorHistoryKey};
      }
    }

    /**
      A tab button: the tab is set and the input cleared; when the tab
      actually changed, the effect clears the WiFi fields unless the tab is
      WiFi, and the email fields and the input unless it is email.
    */
    method ClickTab(name: Tab)
      requires Valid()
      modifies this`activeTab, this`form
      ensures Valid()
      ensures activeTab == name && form.inputValue == "" && form.encryptionType == old(form.encryptionType)
      ensures name != old(activeTab) && name != Wifi ==> form.wifiSSID == "" && form.passwordValue == ""
      ensures name == old(activeTab) || name == Wifi ==> form.wifiSSID == old(form.wifiSSID) && form.passwordValue == old(form.passwordValue)
      ensures name != old(activeTab) && name != Email ==> form.emailTo == "" && form.emailSubject == "" && form.emailBody == ""
      ensures name == old(activeTab) || name == Email ==>
        form.emailTo == old(form.emailTo) && form.emailSubject == old(form.emailSubject) && form.emailBody == old(form.emailBody)
    {
      var clearWifi := name != activeTab && name != Wifi;
      var clearEmail := name != activeTab && name != Email;
      activeTab := name;
      form := form.(inputValue := "");
      if clearWifi {
        form := form.(passwordValue := "", wifiSSID := "");
      }
      if clearEmail {
        form := form.(emailTo := "", emailSubject := "", emailBody := "");
      }
    }

    /** Typing into the input of the link, text or data tab. */
    method TypeInput(value: string)
      requires Valid() && activeTab != Wifi && activeTab != Email
      modifies this`form
      ensures Valid() && form == old(form).(inputValue := value)
    {
      form := form.(inputValue := value);
    }

    /** Typing into the WiFi tab's fields. */
    method TypeWifi(ssid: string, password: string, encryption: string)
      requires Valid() && activeTab == Wifi
      modifies this`form
      ensures Valid() && form == old(form).(wifiSSID := ssid, passwordValue := password, encryptionType := encryption)
    {
      form := form.(wifiSSID := ssid, passwordValue := password, encryptionType := encryption);
    }

    /** Typing into the email tab's fields. */
    method TypeEmail(to: string, subject: string, body: string)
      requires Valid() && activeTab == Email
      modifies this`form
      ensures Valid() && form == old(form).(emailTo := to, emailSubject := subject, emailBody := body)
    {
      form := form.(emailTo := to, emailSubject := subject, emailBody := body);
    }

    /** Choosing a size. */
    method ChooseSize(s: string)
      requires Valid()
      modifies this`size
      ensures Valid() && size == s
    {
      size := s;
    }

    /**
      `generateQRCode`, up to its timer: a refused form only alerts; an
      accepted one sets the spinner and leaves the rest to the timer, which
      captures the state as it is now.
    */
    method GenerateQrCode() returns (alert: Option<string>)
      requires Valid() && !isGenerating
      modifies this`isGenerating, this`pending
      ensures Valid()
      ensures var v := Validate(TabName(activeTab), form);
        v.Rejected? ==> alert == Some(v.alert) && !isGenerating && pending.None?
      ensures var v := Validate(TabName(activeTab), form);
        v.Accepted? ==> alert.None? && isGenerating && pending == Some(Snapshot(v.data, TabName(activeTab), size, customization, form, history))
    {
      var v := Validate(TabName(activeTab), form);
      if v.Rejected? {
        return Some(v.alert);
      }
      StartGeneration(v.data);
      alert := None;
    }

    /** The accepted branch of `generateQRCode`: the spinner starts and the timer captures `data` and the state. */
    method StartGeneration(data: string)
      requires Valid() && !isGenerating
      modifies this`isGenerating, this`pending
      ensures Valid()
      ensures isGenerating && pending == Some(Snapshot(data, TabName(activeTab), size, customization, form, history))
    {
      isGenerating := true;
      pending := Some(Snapshot(data, TabName(activeTab), size, customization, form, history));
    }

    /**
      The timer of `generateQRCode` fires at `now`: the URL and the history
      item are built from the captured state, and the new history is the
      captured one with the item in front, whatever happened to the history
      in between.
    */
    method OnGenerateTimer(now: int)
      requires Valid() && pending.Some?
      modifies this
      ensures Valid()
      ensures var s := old(pending.value);
        && qrUrl == BuildQrUrl(s.size, s.data, s.customization)
        && history == AddGenerated(s.history, NewItem(now, s.tab, s.data, s.size, qrUrl, s.customization, s.fields))
      ensures !isGenerating && pending.None?
      ensures store == SaveGenerated(history, old(store))
      ensures unchanged(`activeTab, `size, `isDownloading, `form, `customization)
    {
      var s := pending.value;
      var url := BuildQrUrl(s.size, s.data, s.customization);
      Publish(url, AddGenerated(s.history, NewItem(now, s.tab, s.data, s.size, url, s.customization, s.fields)));
      isGenerating := false;
      pending := None;
    }

    /** Shows `url` and stores the history `h` through the save effect. */
    method Publish(url: string, h: seq<GeneratedItem>)
      requires Valid() && StartsWith(url, QrApiBase) && h != []
      modifies this`qrUrl, this`history, this`store
      ensures Valid()
      ensures qrUrl == url && history == h && store == SaveGenerated(h, old(store))
    {
      qrUrl := url;
      history := h;
      SaveEffect();
    }

    /** Builds the URL for `data` from the current state and records it as a new item. */
    method Record(now: int, data: string)
      requires Valid()
      modifies this`qrUrl, this`history, this`store
      ensures Valid()
      ensures qrUrl == BuildQrUrl(size, data, customization)
      ensures history == AddGenerated(old(history), NewItem(now, TabName(activeTab), data, size, qrUrl, customization, form))
      ensures store == SaveGenerated(history, old(store))
    {
      var url := BuildQrUrl(size, data, customization);
      Publish(url, AddGenerated(history, NewItem(now, TabName(activeTab), data, size, url, customization, form)));
    }

    /**
      `handleOneClickDownload` at `now`: the same validation; on success the
      URL is set and the item recorded at once, then the image is fetched;
      `fetchOk` says whether the fetch succeeded.
    */
    method HandleOneClickDownload(now: int, fetchOk: bool) returns (alert: Option<string>)
      requires Valid()
      modifies this`qrUrl, this`history, this`store, this`isDownloading
      ensures Valid()
      ensures var v := Validate(TabName(activeTab), form);
        v.Rejected? ==>
        && alert == Some(v.alert)
        && qrUrl == old(qrUrl) && history == old(history) && store == old(store) && isDownloading == old(isDownloading)
      ensures var v := Validate(TabName(activeTab), form);
        v.Accepted? ==>
        && qrUrl == BuildQrUrl(size, v.data, customization)
        && history == AddGenerated(old(history), NewItem(now, TabName(activeTab), v.data, size, qrUrl, customization, form))
        && store == SaveGenerated(history, old(store))
        && !isDownloading
        && alert == (if fetchOk then None else Some(OneClickFailedAlert))
    {
      var v := Validate(TabName(activeTab), form);
      if v.Rejected? {
        return Some(v.alert);
      }
      alert := DownloadAccepted(now, v.data, fetchOk);
    }

    /** The accepted branch of `handleOneClickDownload` for the payload `data`. */
    method DownloadAccepted(now: int, data: string, fetchOk: bool) returns (alert: Option<string>)
      requires Valid()
      modifies this`qrUrl, this`history, this`store, this`isDownloading
      ensures Valid()
      ensures qrUrl == BuildQrUrl(size, data, customization)
      ensures history == AddGenerated(old(history), NewItem(now, TabName(activeTab), data, size, qrUrl, customization, form))
      ensures store == SaveGenerated(history, old(store))
      ensures !isDownloading
      ensures alert == (if fetchOk then None else Some(OneClickFailedAlert))
    {
      isDownloading := true;
      Record(now, data);
      alert := if fetchOk then None else Some(OneClickFailedAlert);
      isDownloading := false;
    }

    /** `downloadQRCode`: refuses before anything was generated; otherwise fetches the shown URL. */
    method DownloadQrCode(fetchOk: bool) returns (alert: Option<string>)
      requires Valid()
      modifies this`isDownloading
      ensures Valid()
      ensures qrUrl == "" ==> alert == Some(GenerateFirstAlert)
      ensures qrUrl != "" ==> alert == (if fetchOk then None else Some(DownloadFailedAlert))
      ensures isDownloading == (if qrUrl == "" then old(isDownloading) else false)
    {
      if qrUrl == "" {
        return Some(GenerateFirstAlert);
      }
      isDownloading := true;
      alert := if fetchOk then None else Some(DownloadFailedAlert);
      isDownloading := false;
    }

    /** `deleteHistoryItem`: once confirmed, the items with other ids stay, then the save effect runs. */
    method DeleteHistoryItem(id: int, confirmed: bool)
      requires Valid()
      modifies this`history, this`store
      ensures Valid()
      ensures confirmed ==> history == RemoveGenerated(old(history), id) && store == SaveGenerated(history, old(store))
      ensures !confirmed ==> history == old(history) && store == old(store)
    {
      if confirmed {
        history := RemoveGenerated(history, id);
        SaveEffect();
      }
    }

    /** `handleThemeChange`. */
    method HandleThemeChange(foreground: string, background: string)
      requires Valid()
      modifies this`customization
      ensures Valid() && customization == WithTheme(old(customization), foreground, background)
    {
      customization := WithTheme(customization, foreground, background);
    }

    /** `handleMarginChange`. */
    method HandleMarginChange(margin: string)
      requires Valid()
      modifies this`customization
      ensures Valid() && customization == WithMargin(old(customization), margin)
    {
      customization := WithMargin(customization, margin);
    }

    /** `resetCustomization`: once confirmed, the reset settings (margin "4"). */
    method ResetCustomization(confirmed: bool)
      requires Valid()
      modifies this`customization
      ensures Valid()
      ensures customization == (if confirmed then Payloads.ResetCustomization else old(customization))
    {
      if confirmed {
        customization := Payloads.ResetCustomization;
      }
    }
  }

  /**
    An item deleted while a generation is pending comes back when its timer
    fires, because the timer adds to the history it captured.
  */
  method DeleteDuringGeneration(g: Generator, now: int)
    requires g.Valid() && g.pending.Some? && |g.history| == 1 && g.pending.value.history == g.history
    modifies g
    ensures |g.history| == 2 && g.history[1] == old(g.history[0])
  {
    var item := g.history[0];
    g.DeleteHistoryItem(item.id, true);
    assert g.history == [] by {
      assert [item][1..] == [];
    }
    g.OnGenerateTimer(now);
  }

  /** Deleting the only item and mounting a new generator on the same storage shows an empty history. */
  method DeleteLastThenReload(item: GeneratedItem) returns (reloaded: seq<GeneratedItem>)
    ensures reloaded == []
  {
    var g := new Generator(map[GeneratorHistoryKey := GenRecords([item])]);
    g.DeleteHistoryItem(item.id, true);
    assert g.history == [] by {
      assert [item][1..] == [];
    }
    var again := new Generator(g.store);
    reloaded := again.history;
  }

  /** Leaving the WiFi tab for the text tab blanks the network fields but keeps the encryption choice. */
  method LeaveWifiTab() returns (ssid: string, password: string, encryption: string)
    ensures ssid == "" && password == "" && encryption == "WEP"
  {
    var g := new Generator(map[]);
    g.ClickTab(Wifi);
    g.TypeWifi("MyNet", "secret", "WEP");
    g.ClickTab(Text);
    ssid, password, encryption := g.form.wifiSSID, g.form.passwordValue, g.form.encryptionType;
  }
}
