/**
 * The client's session store: five slices, each replaced wholesale or
 * appended to by its own setter, with no check across slices.
 */
module AppStore {
  import opened Wrappers
  import opened Types

  /** A snapshot of the five slices, so that each setter can state the whole new state. */
  datatype StoreState = StoreState(
    userLocation: UserLocation,
    recommendedDoctors: seq<Doctor>,
    selectedDoctor: Option<Doctor>,
    messages: seq<Message>,
    isStreaming: bool)

  class Store {
    var userLocation: UserLocation
    var recommendedDoctors: seq<Doctor>
    var selectedDoctor: Option<Doctor>
    var messages: seq<Message>
    var isStreaming: bool

    ghost function State(): StoreState
      reads this
    {
      StoreState(userLocation, recommendedDoctors, selectedDoctor, messages, isStreaming)
    }

    /** The initial state: Tunis, no doctors, nothing selected, no messages, not streaming. */
    constructor ()
      ensures State() == StoreState(DefaultLocation, [], None, [], false)
    {
      userLocation := DefaultLocation;
      recommendedDoctors := [];
      selectedDoctor := None;
      messages := [];
      isStreaming := false;
    }

    method SetUserLocation(location: UserLocation)
      modifies this
      ensures State() == old(State()).(userLocation := location)
    {
      userLocation := location;
    }

    /** Replaces the recommended doctors wholesale. */
    method SetRecommendedDoctors(doctors: seq<Doctor>)
      modifies this
      ensures State() == old(State()).(recommendedDoctors := doctors)
    {
      recommendedDoctors := doctors;
    }

    /** Appends `doctors` after the current ones: no deduplication and no cap. */
    method AddRecommendedDoctors(doctors: seq<Doctor>)
      modifies this
      ensures State() == old(State()).(recommendedDoctors := old(recommendedDoctors) + doctors)
      ensures |recommendedDoctors| == |old(recommendedDoctors)| + |doctors|
    {
      recommendedDoctors := recommendedDoctors + doctors;
    }

    /** Selects any doctor, or none; membership in the recommended list is not checked. */
    method SetSelectedDoctor(doctor: Option<Doctor>)
      modifies this
      ensures State() == old(State()).(selectedDoctor := doctor)
    {
      selectedDoctor := doctor;
    }

    /** Appends exactly one message at the end; earlier messages are untouched. */
    method AddMessage(message: Message)
      modifies this
      ensures State() == old(State()).(messages := old(messages) + [message])
      ensures |messages| == |old(messages)| + 1 && messages[|messages| - 1] == message
      ensures messages[..|old(messages)|] == old(messages)
    {
      messages := messages + [message];
    }

    method ClearMessages()
      modifies this
      ensures State() == old(State()).(messages := [])
    {
      messages := [];
    }

    method SetIsStreaming(streaming: bool)
      modifies this
      ensures State() == old(State()).(isStreaming := streaming)
    {
      isStreaming := streaming;
    }
  }
}
