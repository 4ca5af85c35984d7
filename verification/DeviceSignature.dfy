/** The settings part of the device configuration's deduplication key, and
    exactly which configurations it identifies. */
module DeviceSignature {
  import opened Outcomes
  import opened Text

  datatype Device =
    | Display(id: string, displayBase: nat)
    | DigitalIo(id: string, ledAddress: nat, switchAddress: nat, buttonAddress: nat)
    | Board(id: string, displayBase: nat, ledAddress: nat, switchAddress: nat, buttonAddress: nat)

  function WithNumber(text: string, n: nat): string {
    text + ":" + Decimal(n)
  }

  /** What follows the identifier. */
  function Settings(device: Device): string {
    match device
    case Display(_, base) => WithNumber(":display", base)
    case DigitalIo(_, led, switch, button) => WithNumber(WithNumber(WithNumber(":digital-io", led), switch), button)
    case Board(_, base, led, switch, button) =>
      WithNumber(WithNumber(WithNumber(WithNumber(":board", base), led), switch), button)
  }

  function DeviceText(device: Device): string {
    device.id + Settings(device)
  }

  function DeviceTexts(devices: seq<Device>): (texts: seq<string>)
    ensures |texts| == |devices|
  {
    seq(|devices|, i requires 0 <= i < |devices| => DeviceText(devices[i]))
  }

  function Signature(devices: seq<Device>): string {
    Joined(DeviceTexts(devices), '|')
  }

  // --- Reading a device text from its end --------------------------------------------------------

  function LastIndexOf(text: string, c: char): (i: Option<nat>)
    ensures i.Some? ==> i.value < |text| && text[i.value] == c && c !in text[i.value + 1..]
    ensures i.None? ==> c !in text
  {
    if text == "" then None
    else if text[|text| - 1] == c then Some(|text| - 1)
    else
      var i := LastIndexOf(text[..|text| - 1], c);
      assert i.Some? ==> text[i.value + 1..] == text[..|text| - 1][i.value + 1..] + [text[|text| - 1]];
      i
  }

  /** The text in front of the last colon, and the number behind it. */
  function TakeNumber(text: string): Option<(string, nat)> {
    match LastIndexOf(text, ':')
    case None => None
    case Some(i) => if IsNumeral(text[i + 1..]) then Some((text[..i], ValueOf(text[i + 1..]))) else None
  }

  predicate EndsWith(text: string, ending: string) {
    |ending| <= |text| && text[|text| - |ending|..] == ending
  }

  function Front(text: string, ending: string): string
    requires EndsWith(text, ending)
  {
    text[..|text| - |ending|]
  }

  function ReadDevice(text: string): Option<Device> {
    match TakeNumber(text)
    case None => None
    case Some((t1, n1)) =>
      if EndsWith(t1, ":display") then Some(Display(Front(t1, ":display"), n1))
      else
        match TakeNumber(t1)
        case None => None
        case Some((t2, n2)) =>
          match TakeNumber(t2)
          case None => None
          case Some((t3, n3)) =>
            if EndsWith(t3, ":digital-io") then Some(DigitalIo(Front(t3, ":digital-io"), n3, n2, n1))
            else
              match TakeNumber(t3)
              case None => None
              case Some((t4, n4)) =>
                if EndsWith(t4, ":board") then Some(Board(Front(t4, ":board"), n4, n3, n2, n1)) else None
  }

  lemma {:induction false} LastSeparator(a: string, b: string, c: char)
    requires c !in b
    ensures LastIndexOf(a + [c] + b, c) == Some(|a|)
  {
    var whole := a + [c] + b;
    if b != "" {
      assert whole[..|whole| - 1] == a + [c] + b[..|b| - 1];
      LastSeparator(a, b[..|b| - 1], c);
    }
  }

  lemma {:induction false} DecimalIsFree(n: nat)
    ensures ':' !in Decimal(n) && '|' !in Decimal(n)
  {
    DecimalHasDigits(n);
  }

  lemma {:induction false} NumberIsTaken(text: string, n: nat)
    ensures TakeNumber(WithNumber(text, n)) == Some((text, n))
  {
    var whole := WithNumber(text, n);
    DecimalIsRead(n);
    DecimalIsFree(n);
    LastSeparator(text, Decimal(n), ':');
    assert whole == text + [':'] + Decimal(n);
    assert whole[..|text|] == text && whole[|text| + 1..] == Decimal(n);
  }

  lemma {:induction false} TakenNumber(text: string)
    requires TakeNumber(text).Some?
    ensures text == WithNumber(TakeNumber(text).value.0, TakeNumber(text).value.1)
  {
    var i := LastIndexOf(text, ':').value;
    NumeralIsDecimal(text[i + 1..]);
    assert text == text[..i] + ":" + text[i + 1..];
  }

  lemma {:induction false} FrontIsRead(text: string, ending: string)
    ensures EndsWith(text + ending, ending) && Front(text + ending, ending) == text
  {
  }

  lemma {:induction false} EndIsRead(text: string, ending: string)
    requires EndsWith(text, ending)
    ensures Front(text, ending) + ending == text
  {
  }

  lemma {:induction false} EndsWithLast(text: string, ending: string)
    requires ending != "" && text != ""
    ensures EndsWith(text, ending) ==> text[|text| - 1] == ending[|ending| - 1]
  {
    if EndsWith(text, ending) {
      assert text[|text| - |ending|..][|ending| - 1] == text[|text| - 1];
    }
  }

  /** A text that ends with a number does not end with a word. */
  lemma {:induction false} NumberIsNoWord(text: string, n: nat, ending: string)
    requires ending != "" && !IsDigit(ending[|ending| - 1])
    ensures !EndsWith(WithNumber(text, n), ending)
  {
    var whole := WithNumber(text, n);
    DecimalHasDigits(n);
    assert IsDigit(whole[|whole| - 1]);
    EndsWithLast(whole, ending);
  }

  lemma {:induction false} NumberBehind(a: string, b: string, n: nat)
    ensures a + WithNumber(b, n) == WithNumber(a + b, n)
  {
  }

  /** Whatever the identifier, a device is read back from its text. */
  lemma {:induction false} DeviceIsRead(device: Device)
    ensures ReadDevice(DeviceText(device)) == Some(device)
  {
    hide WithNumber, TakeNumber, EndsWith, Front;
    var id := device.id;
    match device {
      case Display(_, base) =>
        NumberBehind(id, ":display", base);
        NumberIsTaken(id + ":display", base);
        FrontIsRead(id, ":display");
      case DigitalIo(_, led, switch, button) =>
        var t3 := id + ":digital-io";
        var t2, t1 := WithNumber(t3, led), WithNumber(WithNumber(t3, led), switch);
        NumberBehind(id, ":digital-io", led);
        NumberBehind(id, WithNumber(":digital-io", led), switch);
        NumberBehind(id, WithNumber(WithNumber(":digital-io", led), switch), button);
        NumberIsTaken(t1, button);
        NumberIsTaken(t2, switch);
        NumberIsTaken(t3, led);
        NumberIsNoWord(t2, switch, ":display");
        FrontIsRead(id, ":digital-io");
      case Board(_, base, led, switch, button) =>
        var t4 := id + ":board";
        var t3, t2 := WithNumber(t4, base), WithNumber(WithNumber(t4, base), led);
        var t1 := WithNumber(t2, switch);
        NumberBehind(id, ":board", base);
        NumberBehind(id, WithNumber(":board", base), led);
        NumberBehind(id, WithNumber(WithNumber(":board", base), led), switch);
        NumberBehind(id, WithNumber(WithNumber(WithNumber(":board", base), led), switch), button);
        NumberIsTaken(t1, button);
        NumberIsTaken(t2, switch);
        NumberIsTaken(t3, led);
        NumberIsTaken(t4, base);
        NumberIsNoWord(t2, switch, ":display");
        NumberIsNoWord(t4, base, ":digital-io");
        FrontIsRead(id, ":board");
    }
  }

  /** What is read as a device is that device's text. */
  lemma {:induction false} ReadText(text: string)
    requires ReadDevice(text).Some?
    ensures DeviceText(ReadDevice(text).value) == text
  {
    hide WithNumber, TakeNumber, EndsWith, Front;
    var device := ReadDevice(text).value;
    var id := device.id;
    TakenNumber(text);
    var (t1, n1) := TakeNumber(text).value;
    if EndsWith(t1, ":display") {
      EndIsRead(t1, ":display");
      NumberBehind(id, ":display", n1);
    } else {
      TakenNumber(t1);
      var (t2, n2) := TakeNumber(t1).value;
      TakenNumber(t2);
      var (t3, n3) := TakeNumber(t2).value;
      if EndsWith(t3, ":digital-io") {
        EndIsRead(t3, ":digital-io");
        NumberBehind(id, ":digital-io", n3);
        NumberBehind(id, WithNumber(":digital-io", n3), n2);
        NumberBehind(id, WithNumber(WithNumber(":digital-io", n3), n2), n1);
      } else {
        TakenNumber(t3);
        var (t4, n4) := TakeNumber(t3).value;
        EndIsRead(t4, ":board");
        NumberBehind(id, ":board", n4);
        NumberBehind(id, WithNumber(":board", n4), n3);
        NumberBehind(id, WithNumber(WithNumber(":board", n4), n3), n2);
        NumberBehind(id, WithNumber(WithNumber(WithNumber(":board", n4), n3), n2), n1);
      }
    }
  }

  lemma {:induction false} DeviceTextIsInjective(a: Device, b: Device)
    requires DeviceText(a) == DeviceText(b)
    ensures a == b
  {
    hide ReadDevice, DeviceText;
    DeviceIsRead(a);
    DeviceIsRead(b);
  }

  // --- Signatures of identifiers without bars ---------------------------------------------------------

  predicate NoBars(devices: seq<Device>) {
    forall i :: 0 <= i < |devices| ==> '|' !in devices[i].id
  }

  lemma {:induction false} NumberHasNoBar(text: string, n: nat)
    ensures '|' in WithNumber(text, n) <==> '|' in text
  {
    DecimalIsFree(n);
    assert '|' in text + ":" <==> '|' in text;
  }

  lemma {:induction false} SettingsHaveNoBar(device: Device)
    ensures '|' !in Settings(device)
  {
    hide WithNumber;
    match device {
      case Display(_, base) => NumberHasNoBar(":display", base);
      case DigitalIo(_, led, switch, button) =>
        NumberHasNoBar(":digital-io", led);
        NumberHasNoBar(WithNumber(":digital-io", led), switch);
        NumberHasNoBar(WithNumber(WithNumber(":digital-io", led), switch), button);
      case Board(_, base, led, switch, button) =>
        NumberHasNoBar(":board", base);
        NumberHasNoBar(WithNumber(":board", base), led);
        NumberHasNoBar(WithNumber(WithNumber(":board", base), led), switch);
        NumberHasNoBar(WithNumber(WithNumber(WithNumber(":board", base), led), switch), button);
    }
  }

  lemma {:induction false} TextsAreFree(devices: seq<Device>)
    requires NoBars(devices)
    ensures Free(DeviceTexts(devices), '|')
  {
    hide Settings;
    forall i | 0 <= i < |devices|
      ensures '|' !in DeviceTexts(devices)[i]
    {
      SettingsHaveNoBar(devices[i]);
    }
  }

  lemma {:induction false} TextIsNotEmpty(device: Device)
    ensures DeviceText(device) != ""
  {
  }

  lemma {:induction false} OnlyNoDevicesHaveNoText(devices: seq<Device>)
    ensures Signature(devices) == "" <==> devices == []
  {
    hide DeviceText;
    if devices != [] {
      TextIsNotEmpty(devices[0]);
      assert DeviceTexts(devices)[0] != "";
    }
  }

  /** Configurations whose identifiers hold no bar have the same signature
      exactly when they are the same; colons do no harm. */
  lemma {:induction false} SignatureIdentifiesDevices(a: seq<Device>, b: seq<Device>)
    requires NoBars(a) && NoBars(b)
    ensures Signature(a) == Signature(b) <==> a == b
  {
    hide DeviceText;
    if Signature(a) == Signature(b) {
      OnlyNoDevicesHaveNoText(a);
      OnlyNoDevicesHaveNoText(b);
      if a != [] {
        TextsAreFree(a);
        TextsAreFree(b);
        JoinedIsInjective(DeviceTexts(a), DeviceTexts(b), '|');
        forall i | 0 <= i < |a|
          ensures a[i] == b[i]
        {
          assert DeviceTexts(a)[i] == DeviceTexts(b)[i];
          DeviceTextIsInjective(a[i], b[i]);
        }
      }
    }
  }

  // --- The exact condition -------------------------------------------------------------------------------

  /** The identifier holds a bar with a device text in front of it. */
  predicate Splits(id: string) {
    exists p :: 0 <= p < |id| && SplitsAt(id, p)
  }

  predicate SplitsAt(id: string, p: nat)
    requires p < |id|
  {
    id[p] == '|' && ReadDevice(id[..p]).Some?
  }

  /** No other configuration has this one's signature. */
  ghost predicate IsIdentified(a: seq<Device>) {
    forall b: seq<Device> :: Signature(b) == Signature(a) ==> b == a
  }

  lemma {:induction false} OneText(device: Device)
    ensures DeviceTexts([device]) == [DeviceText(device)] && Signature([device]) == DeviceText(device)
  {
    hide DeviceText;
  }

  lemma {:induction false} TextsAppend(a: seq<Device>, b: seq<Device>)
    requires a != [] && b != []
    ensures Signature(a + b) == Signature(a) + ['|'] + Signature(b)
  {
    hide DeviceText;
    assert DeviceTexts(a + b) == DeviceTexts(a) + DeviceTexts(b);
    JoinedAppends(DeviceTexts(a), DeviceTexts(b), '|');
  }

  /** Several devices have the signature of one, whose identifier swallows the others. */
  lemma {:induction false} SeveralAreConfused(a: seq<Device>)
    requires |a| > 1
    ensures !IsIdentified(a)
  {
    hide IsIdentified, Signature, Settings;
    var front, last := a[..|a| - 1], a[|a| - 1];
    var one := last.(id := Signature(front) + ['|'] + last.id);
    assert a == front + [last];
    TextsAppend(front, [last]);
    OneText(last);
    OneText(one);
    SettingsStay(last, one.id);
    assert DeviceText(one) == Signature(front) + ['|'] + DeviceText(last);
    AnotherIsConfused(a, [one]);
  }

  lemma {:induction false} AnotherIsConfused(a: seq<Device>, b: seq<Device>)
    requires Signature(a) == Signature(b) && a != b
    ensures !IsIdentified(a)
  {
    hide Signature;
  }

  lemma {:induction false} SettingsStay(device: Device, id: string)
    ensures Settings(device.(id := id)) == Settings(device)
  {
  }

  lemma {:induction false} SplittingIsConfused(device: Device, p: nat)
    requires p < |device.id| && SplitsAt(device.id, p)
    ensures !IsIdentified([device])
  {
    hide IsIdentified, Signature, Settings, ReadDevice;
    var id := device.id;
    var first := ReadDevice(id[..p]).value;
    var second := device.(id := id[p + 1..]);
    ReadText(id[..p]);
    OneText(first);
    OneText(second);
    OneText(device);
    SettingsStay(device, second.id);
    TextsAppend([first], [second]);
    assert id == id[..p] + ['|'] + id[p + 1..];
    assert DeviceText(device) == DeviceText(first) + ['|'] + DeviceText(second);
    AnotherIsConfused([device], [first] + [second]);
  }

  lemma {:induction false} OnlySplittingIsConfused(device: Device, b: seq<Device>)
    requires Signature(b) == Signature([device]) && b != [device]
    ensures Splits(device.id)
  {
    hide Signature, Settings, ReadDevice;
    var text := DeviceText(device);
    OneText(device);
    OnlyNoDevicesHaveNoText(b);
    OnlyNoDevicesHaveNoText([device]);
    OneText(b[0]);
    if |b| == 1 {
      assert b == [b[0]];
      DeviceTextIsInjective(b[0], device);
    }
    assert b == [b[0]] + b[1..];
    TextsAppend([b[0]], b[1..]);
    var first := DeviceText(b[0]);
    var p := |first|;
    assert text[p] == '|' && text[..p] == first;
    SettingsHaveNoBar(device);
    assert forall k :: |device.id| <= k < |text| ==> text[k] == Settings(device)[k - |device.id|];
    assert device.id[..p] == first;
    DeviceIsRead(b[0]);
    assert SplitsAt(device.id, p);
  }

  /** A configuration can be told from all others by its signature exactly if
      it has at most one device, whose identifier does not split. */
  lemma {:induction false} SignatureIdentifiesExactly(a: seq<Device>)
    ensures IsIdentified(a) <==> |a| <= 1 && forall i :: 0 <= i < |a| ==> !Splits(a[i].id)
  {
    hide Signature, Splits, SplitsAt;
    if |a| > 1 {
      SeveralAreConfused(a);
    } else if |a| == 0 {
      OnlyNoDevicesHaveNoText(a);
      forall b: seq<Device> | Signature(b) == Signature(a)
        ensures b == a
      {
        OnlyNoDevicesHaveNoText(b);
      }
    } else {
      OneIsIdentifiedExactly(a[0]);
      assert a == [a[0]];
    }
  }

  lemma {:induction false} OneIsIdentifiedExactly(device: Device)
    ensures IsIdentified([device]) <==> !Splits(device.id)
  {
    hide Signature, SplitsAt;
    if Splits(device.id) {
      var p :| 0 <= p < |device.id| && SplitsAt(device.id, p);
      SplittingIsConfused(device, p);
    } else {
      forall b: seq<Device> | Signature(b) == Signature([device])
        ensures b == [device]
      {
        if b != [device] {
          OnlySplittingIsConfused(device, b);
        }
      }
    }
  }

  // --- The key --------------------------------------------------------------------------------------------

  /** The deduplication key: the epoch in front of the signature. */
  function DeviceKey(epoch: nat, devices: seq<Device>): string {
    Decimal(epoch) + [':'] + Signature(devices)
  }

  /** The epoch can always be told from the key, and so can the signature. */
  lemma {:induction false} KeyHoldsEpoch(m: nat, a: seq<Device>, n: nat, b: seq<Device>)
    ensures DeviceKey(m, a) == DeviceKey(n, b) <==> m == n && Signature(a) == Signature(b)
  {
    hide Signature;
    if DeviceKey(m, a) == DeviceKey(n, b) {
      DecimalHasDigits(m);
      DecimalHasDigits(n);
      FirstPart(Decimal(m), Decimal(n), Signature(a), Signature(b), ':');
      DecimalIsInjective(m, n);
    }
  }

  /** For identifiers without bars keys are the same exactly for the same epoch and the same devices. */
  lemma {:induction false} KeyIdentifiesConfiguration(m: nat, a: seq<Device>, n: nat, b: seq<Device>)
    requires NoBars(a) && NoBars(b)
    ensures DeviceKey(m, a) == DeviceKey(n, b) <==> m == n && a == b
  {
    hide Signature;
    KeyHoldsEpoch(m, a, n, b);
    SignatureIdentifiesDevices(a, b);
  }

  /** Among all configurations, a key identifies exactly those of at most one
      device, whose identifier does not split. */
  lemma {:induction false} KeyIdentifiesExactly(epoch: nat, a: seq<Device>)
    ensures (forall n: nat, b: seq<Device> :: DeviceKey(n, b) == DeviceKey(epoch, a) ==> n == epoch && b == a)
            <==> |a| <= 1 && forall i :: 0 <= i < |a| ==> !Splits(a[i].id)
  {
    hide Signature, Splits, DeviceKey;
    SignatureIdentifiesExactly(a);
    forall n: nat, b: seq<Device>
      ensures DeviceKey(n, b) == DeviceKey(epoch, a) <==> n == epoch && Signature(b) == Signature(a)
    {
      KeyHoldsEpoch(n, b, epoch, a);
    }
    if !IsIdentified(a) {
      var b: seq<Device> :| Signature(b) == Signature(a) && b != a;
      assert DeviceKey(epoch, b) == DeviceKey(epoch, a);
    }
  }

  /** For example, one device passes for two. */
  lemma {:induction false} BarsConfuse(m: nat, n: nat)
    ensures Signature([Display(DeviceText(Display("a", m)) + "|b", n)]) == Signature([Display("a", m), Display("b", n)])
  {
    hide Settings;
    var one, first, second := Display(DeviceText(Display("a", m)) + "|b", n), Display("a", m), Display("b", n);
    OneText(one);
    OneText(first);
    OneText(second);
    TextsAppend([first], [second]);
    SettingsStay(second, one.id);
    assert [first] + [second] == [first, second];
    assert DeviceText(one) == DeviceText(first) + ['|'] + DeviceText(second);
  }
}
