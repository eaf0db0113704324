/** The observable side effects of a tick: sends on the message broker's
    channels and calls into the sound player, recorded in order. */
module Events {
  import opened Constants

  datatype Event =
    | EatPelletSent(isPowerful: bool)               // Msg.EatPellet <- isPowerful
    | EatPelletSignal                               // Msg.EatPellet <- struct{}{}
    | PhaseChangeSent(phase: int)                   // Msg.PhaseChange <- phase
    | PlayedOnce(effect: SoundEffect)               // SoundPlayer.PlayOnce
    | LoopStarted(effect: SoundEffect)              // SoundPlayer.PlayOnLoop
    | LoopStopped                                   // InfiniteAudio.Stop
    | BackgroundReplaced(effect: SoundEffect, immediate: bool)  // InfiniteAudio.Replace

  class EventLog {
    var events: seq<Event>

    constructor ()
      ensures events == []
    {
      events := [];
    }

    method Send(e: Event)
      modifies this
      ensures events == old(events) + [e]
    {
      events := events + [e];
    }
  }
}
