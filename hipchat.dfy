/** The HipChat integration of hipchat.js: the glance status it derives from the
    server's state, the "key gone" / "key back" notifications with their `wasMissing`
    latch, and the store of room installations. Requests to HipChat, OAuth tokens
    and the data.json file are not modelled; what would be sent is logged instead. */
module Hipchat {
  import opened Common
  import Decimal

  /** The properties of the server's state that statusContentFromState reads. */
  datatype StateView = StateView(keyPresent: bool, keyMissing: bool, queueLength: nat, keyTakenOn: Option<int>)

  /** The glance JSON `{label: {type, value}, status: {type, value: {label, type}}}`.
      Both `label` and `type` are Dafny keywords: JSON's `type` is `kind` here, the
      outer `label` is `title` and the lozenge's `label` is `text`. */
  datatype Label = Label(kind: string, value: string)
  datatype StatusValue = StatusValue(text: string, kind: string)
  datatype Status = Status(kind: string, value: StatusValue)
  datatype StatusContent = StatusContent(title: Label, status: Status)

  /** The lozenge text and colour for a state. */
  function StatusValueFromState(v: StateView): (r: StatusValue)
    ensures r.kind == "success" <==> v.keyPresent && v.queueLength == 0
    ensures r.kind == "error" <==> !v.keyPresent && v.keyMissing
    ensures r.kind == "moved" <==> !v.keyPresent && !v.keyMissing && v.keyTakenOn.None?
    ensures r.kind == "current" <==> (v.keyPresent && v.queueLength > 0) || (!v.keyPresent && !v.keyMissing && v.keyTakenOn.Some?)
    ensures v.keyPresent && v.queueLength > 0 ==> "RESERVIERT" <= r.text
    ensures v.keyPresent && v.queueLength == 1 ==> r.text == "RESERVIERT"
  {
    if v.keyPresent then
      if v.queueLength == 1 then StatusValue("RESERVIERT", "current")
      else if v.queueLength > 1 then StatusValue("RESERVIERT (" + Decimal.NatToString(v.queueLength) + ")", "current")
      else StatusValue("FREI", "success")
    else
      if v.keyMissing then StatusValue("VERMISST", "error")
      else if v.keyTakenOn.None? then StatusValue("UNKLAR", "moved")
      else StatusValue("BESETZT", "current")
  }

  /** statusContentFromState: every glance is labelled "Kloschlüssel" and shows a
      lozenge whose text and colour say what the key is doing. */
  function StatusContentFromState(v: StateView): (r: StatusContent)
    ensures r.title == Label("html", "Kloschlüssel")
    ensures r.status.kind == "lozenge"
    ensures r.status.value == StatusValueFromState(v)
  {
    StatusContent(Label("html", "Kloschlüssel"), Status("lozenge", StatusValueFromState(v)))
  }

  /** What a glance is meant to tell its reader. */
  datatype Situation = Free | Reserved(waiting: nat) | Missing | Unclear | Occupied

  function Classify(v: StateView): Situation {
    if v.keyPresent then (if v.queueLength == 0 then Free else Reserved(v.queueLength))
    else if v.keyMissing then Missing
    else if v.keyTakenOn.None? then Unclear
    else Occupied
  }

  const ReservedPrefix: string := "RESERVIERT ("

  /** How a reader of the lozenge recovers the situation from text and colour. A
      count in parentheses is a plain numeral (no leading zero) above one: a single
      waiting client is shown without a count. */
  function DecodeStatus(s: StatusValue): Option<Situation> {
    if s == StatusValue("FREI", "success") then Some(Free)
    else if s == StatusValue("RESERVIERT", "current") then Some(Reserved(1))
    else if s == StatusValue("VERMISST", "error") then Some(Missing)
    else if s == StatusValue("UNKLAR", "moved") then Some(Unclear)
    else if s == StatusValue("BESETZT", "current") then Some(Occupied)
    else if s.kind == "current" && |s.text| > |ReservedPrefix| + 1
         && s.text[..|ReservedPrefix|] == ReservedPrefix && s.text[|s.text| - 1] == ')'
         && Decimal.AllDigits(s.text[|ReservedPrefix|..|s.text| - 1])
         && s.text[|ReservedPrefix|] != '0' && Decimal.ParseDigits(s.text[|ReservedPrefix|..|s.text| - 1]) > 1
    then Some(Reserved(Decimal.ParseDigits(s.text[|ReservedPrefix|..|s.text| - 1])))
    else None
  }

  /** The lozenge is unambiguous: decoding it gives back the situation, including
      the number of waiting clients. */
  lemma StatusRoundTrip(v: StateView)
    ensures DecodeStatus(StatusContentFromState(v).status.value) == Some(Classify(v))
  {
    if v.keyPresent && v.queueLength > 1 {
      var digits := Decimal.NatToString(v.queueLength);
      var text := ReservedPrefix + digits + ")";
      assert StatusContentFromState(v).status.value == StatusValue(text, "current");
      assert |text| > 10;
      assert text[..|ReservedPrefix|] == ReservedPrefix;
      assert text[|ReservedPrefix|..|text| - 1] == digits;
      Decimal.ParseRendered(v.queueLength);
    }
  }

  /** Two states show the same glance exactly when they are in the same situation. */
  lemma SameGlanceIffSameSituation(v1: StateView, v2: StateView)
    ensures StatusContentFromState(v1) == StatusContentFromState(v2) <==> Classify(v1) == Classify(v2)
  {
    StatusRoundTrip(v1);
    StatusRoundTrip(v2);
  }

  /** A message that sendNotification posts to the rooms. */
  datatype Notification = Notification(color: string, message: string, notify: bool, messageFormat: string)

  const KeyGoneNotice: Notification := Notification("red", "Schlüssel weg", true, "text")
  const KeyBackNotice: Notification := Notification("green", "Schlüssel zurück", true, "text")

  /** The installation data HipChat posts to /installed; group and room ids are JSON
      numbers. */
  datatype Installed = Installed(groupId: nat, roomId: nat, oauthId: string, oauthSecret: string, capabilitiesUrl: string)

  /** One entry of `storeData`; the capabilities and token documents are kept as text. */
  datatype Room = Room(key: string, installed: Installed, capabilities: string, auth: Option<string>)

  /** getStoreKey: `groupId + "#" + roomId`. */
  function GetStoreKey(groupId: nat, roomId: nat): (key: string)
    ensures var g := Decimal.NatToString(groupId);
      && FirstIndexOf(key, '#') == Some(|g|)
      && key[..|g|] == g && key[|g| + 1..] == Decimal.NatToString(roomId)
  {
    var g := Decimal.NatToString(groupId);
    var key := g + "#" + Decimal.NatToString(roomId);
    assert key[|g|] == '#' && forall k | 0 <= k < |g| :: key[k] == g[k];
    key
  }

  function FirstIndexOf(s: string, c: char): (r: Option<nat>)
    ensures r.Some? ==> r.value < |s| && s[r.value] == c && forall k | 0 <= k < r.value :: s[k] != c
    ensures r.None? ==> forall k | 0 <= k < |s| :: s[k] != c
  {
    if s == [] then None
    else if s[0] == c then Some(0)
    else match FirstIndexOf(s[1..], c)
      case None => None
      case Some(i) => Some(i + 1)
  }

  /** Reads a store key back into its group and room ids. */
  function SplitStoreKey(key: string): Option<(nat, nat)> {
    match FirstIndexOf(key, '#')
    case None => None
    case Some(i) =>
      if Decimal.AllDigits(key[..i]) && Decimal.AllDigits(key[i + 1..])
      then Some((Decimal.ParseDigits(key[..i]), Decimal.ParseDigits(key[i + 1..])))
      else None
  }

  /** A store key names its room: splitting it gives back the group and room ids. */
  lemma StoreKeyRoundTrip(groupId: nat, roomId: nat)
    ensures SplitStoreKey(GetStoreKey(groupId, roomId)) == Some((groupId, roomId))
  {
    Decimal.ParseRendered(groupId);
    Decimal.ParseRendered(roomId);
  }

  /** Distinct rooms never share a store entry. */
  lemma StoreKeyInjective(g1: nat, r1: nat, g2: nat, r2: nat)
    requires GetStoreKey(g1, r1) == GetStoreKey(g2, r2)
    ensures g1 == g2 && r1 == r2
  {
    StoreKeyRoundTrip(g1, r1);
    StoreKeyRoundTrip(g2, r2);
  }

  /** The object `hipchat.init` returns, with the module-level flags and the store it
      closes over. `glances` and `sent` log what would go to HipChat: one glance per
      update and one notification per request, without the fan-out to each room. */
  class Integration {
    const doSendNotification: bool
    var wasMissing: bool
    var storeData: map<string, Room>
    var glances: seq<StatusContent>
    var sent: seq<Notification>

    /** `storeData` is what data.json held at start-up. */
    constructor (doSendNotification: bool, storeData: map<string, Room>)
      ensures this.doSendNotification == doSendNotification && this.storeData == storeData
      ensures !wasMissing && glances == [] && sent == []
    {
      this.doSendNotification := doSendNotification;
      this.storeData := storeData;
      wasMissing := false;
      glances := [];
      sent := [];
    }

    /** Posts nothing while `doSendNotification` is off. */
    method SendNotification(n: Notification)
      modifies this`sent
      ensures sent == if doSendNotification then old(sent) + [n] else old(sent)
    {
      if doSendNotification {
        sent := sent + [n];
      }
    }

    method SendGlanceUpdate(view: StateView)
      modifies this`glances
      ensures glances == old(glances) + [StatusContentFromState(view)]
    {
      glances := glances + [StatusContentFromState(view)];
    }

    method NotifyKeyTaken(view: StateView)
      modifies this`glances
      ensures glances == old(glances) + [StatusContentFromState(view)]
    {
      SendGlanceUpdate(view);
    }

    /** Sets the latch and asks for the "key gone" notification. */
    method NotifyKeyMissing(view: StateView)
      modifies this`wasMissing, this`glances, this`sent
      ensures wasMissing
      ensures glances == old(glances) + [StatusContentFromState(view)]
      ensures sent == if doSendNotification then old(sent) + [KeyGoneNotice] else old(sent)
    {
      wasMissing := true;
      SendGlanceUpdate(view);
      SendNotification(KeyGoneNotice);
    }

    /** Asks for the "key back" notification only when the latch is set, and resets it:
        one per missing episode. */
    method NotifyKeyReturned(view: StateView)
      modifies this`wasMissing, this`glances, this`sent
      ensures !wasMissing
      ensures glances == old(glances) + [StatusContentFromState(view)]
      ensures sent == if doSendNotification && old(wasMissing) then old(sent) + [KeyBackNotice] else old(sent)
    {
      SendGlanceUpdate(view);
      if wasMissing {
        wasMissing := false;
        SendNotification(KeyBackNotice);
      }
    }

    method NotifyReservationQueued(view: StateView)
      modifies this`glances
      ensures glances == old(glances) + [StatusContentFromState(view)]
    {
      SendGlanceUpdate(view);
    }

    method NotifyReservationRemoved(view: StateView)
      modifies this`glances
      ensures glances == old(glances) + [StatusContentFromState(view)]
    {
      SendGlanceUpdate(view);
    }

    /** Overwrites the room's entry, dropping any token it had. */
    method StoreInstallData(installed: Installed, capabilities: string)
      modifies this`storeData
      ensures var key := GetStoreKey(installed.groupId, installed.roomId);
        storeData == old(storeData)[key := Room(key, installed, capabilities, None)]
    {
      var key := GetStoreKey(installed.groupId, installed.roomId);
      storeData := storeData[key := Room(key, installed, capabilities, None)];
    }

    /** Records a token for an installed room; an unknown key changes nothing. */
    method StoreAuthData(key: string, auth: string)
      modifies this`storeData
      ensures key in old(storeData) ==> storeData == old(storeData)[key := old(storeData)[key].(auth := Some(auth))]
      ensures key !in old(storeData) ==> storeData == old(storeData)
    {
      if key in storeData {
        storeData := storeData[key := storeData[key].(auth := Some(auth))];
      }
    }
  }
}
