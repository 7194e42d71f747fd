/** The mantra player of the trip guide: one selected trip state, a playing
    flag, and an index into the selected state's mantras that an interval
    moves forward, wrapping at the end, while the player is on. */
module Trip {
  import opened Wrappers
  import Cyclic

  /** A trip state; its description, techniques and colour are only rendered. */
  datatype TripState = TripState(id: string, name: string, mantras: seq<string>)

  /** The shipped trip states, in display order. */
  const TripStates: seq<TripState> := [
    TripState("preparation", "Sacred Preparation",
      ["OM NAMAH SHIVAYA", "I am ready to receive", "KALI MA guide this journey"]),
    TripState("rising", "Rising Energy",
      ["I surrender to the process", "KRISHNA guide my awareness", "This is sacred medicine"]),
    TripState("peak", "Peak Experience",
      ["I AM THAT I AM", "BRAHMAN BRAHMAN BRAHMAN", "Pure awareness witnessing all"]),
    TripState("difficult", "Challenging Terrain",
      ["MA KALI protect me", "This too shall pass", "I am safe in consciousness"]),
    TripState("integration", "Sacred Integration",
      ["Gratitude for this experience", "I integrate with love", "BRAHMAN in all forms"])
  ]

  /** Five shipped states, each with three mantras and its own id. */
  lemma ShippedStates()
    ensures |TripStates| == 5
    ensures forall s :: s in TripStates ==> |s.mantras| == 3
    ensures forall i, j :: 0 <= i < j < |TripStates| ==> TripStates[i].id != TripStates[j].id
  {
  }

  class TripGuide {
    var selectedState: TripState
    var isMantraPlaying: bool
    var currentMantraIndex: nat

    /** The index always names a mantra of the selected state. */
    ghost predicate Valid()
      reads this
    {
      currentMantraIndex < |selectedState.mantras|
    }

    constructor ()
      ensures Valid()
      ensures selectedState == TripStates[0] && !isMantraPlaying && currentMantraIndex == 0
    {
      selectedState := TripStates[0];
      isMantraPlaying := false;
      currentMantraIndex := 0;
    }

    /** One firing of the three-second interval. The interval exists only
        while the player is on; otherwise nothing happens. */
    method Rotate()
      requires Valid()
      modifies this
      ensures Valid()
      ensures selectedState == old(selectedState) && isMantraPlaying == old(isMantraPlaying)
      ensures currentMantraIndex == if old(isMantraPlaying)
        then Cyclic.Next(old(currentMantraIndex), |selectedState.mantras|)
        else old(currentMantraIndex)
    {
      if isMantraPlaying {
        currentMantraIndex := Cyclic.Next(currentMantraIndex, |selectedState.mantras|);
      }
    }

    /** The play/pause button: flips the flag and starts over at the first
        mantra when turning the player on. */
    method TogglePlay()
      requires Valid()
      modifies this
      ensures Valid()
      ensures isMantraPlaying == !old(isMantraPlaying) && selectedState == old(selectedState)
      ensures isMantraPlaying ==> currentMantraIndex == 0
      ensures !isMantraPlaying ==> currentMantraIndex == old(currentMantraIndex)
    {
      var wasPlaying := isMantraPlaying;
      isMantraPlaying := !wasPlaying;
      if !wasPlaying {
        currentMantraIndex := 0;
      }
    }

    /** A state button: select that state, stop, and reset the index. */
    method Select(state: TripState)
      requires state in TripStates
      modifies this
      ensures Valid()
      ensures selectedState == state && !isMantraPlaying && currentMantraIndex == 0
    {
      ShippedStates();
      selectedState := state;
      isMantraPlaying := false;
      currentMantraIndex := 0;
    }

    /** The mantra on display: the current one while playing, none otherwise. */
    function DisplayedMantra(): (m: Option<string>)
      reads this
      requires Valid()
      ensures m.Some? <==> isMantraPlaying
      ensures m.Some? ==> m.value in selectedState.mantras
    {
      if isMantraPlaying then Some(selectedState.mantras[currentMantraIndex]) else None
    }
  }
}
