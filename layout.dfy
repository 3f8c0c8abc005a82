/** The bus-layout validator the host asks before activating the plug-in.
    A JUCE AudioChannelSet is a set of channel types; the two layouts the
    engine accepts are mono (one centre channel) and stereo (left, right). */
module BusLayout {

  datatype ChannelType = Centre | Left | Right | OtherChannel(id: nat)

  /** A main bus's channel set; the empty set is a disabled bus. */
  datatype ChannelSet = ChannelSet(channels: set<ChannelType>)

  datatype BusesLayout = BusesLayout(mainInput: ChannelSet, mainOutput: ChannelSet)

  function Disabled(): ChannelSet { ChannelSet({}) }
  function Mono(): ChannelSet { ChannelSet({Centre}) }
  function Stereo(): ChannelSet { ChannelSet({Left, Right}) }

  predicate IsDisabled(c: ChannelSet) { c.channels == {} }

  /** isBusesLayoutSupported: reject a disabled bus, then any input that is
      neither mono nor stereo, then any output that differs from the input.
      The accepted layouts are exactly mono-in/mono-out and
      stereo-in/stereo-out. */
  function IsBusesLayoutSupported(layouts: BusesLayout): (ok: bool)
    ensures ok <==> (layouts == BusesLayout(Mono(), Mono()) || layouts == BusesLayout(Stereo(), Stereo()))
    ensures ok ==> |layouts.mainInput.channels| == |layouts.mainOutput.channels| <= 2
  {
    var inSet, outSet := layouts.mainInput, layouts.mainOutput;
    if IsDisabled(inSet) || IsDisabled(outSet) then false
    else if !(inSet == Mono() || inSet == Stereo()) then false
    else inSet == outSet
  }
}
