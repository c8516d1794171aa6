/** Playback instances and the places that remember which one is current: the
    module-level `currentPlayingAudio` of client/src/components/modes/ReviewCard.js
    and the AudioProvider of client/src/context/AudioContext.js. */
module AudioRegistry {

  /** A Howl instance. Of its behaviour only the request to stop is modelled. */
  class Sound {
    const src: string
    var stopped: bool

    constructor (src: string)
      ensures this.src == src && !stopped
    {
      this.src := src;
      stopped := false;
    }

    method Stop()
      modifies this
      ensures stopped
    {
      stopped := true;
    }
  }

  /** A mutable global holding the playing instance, or null. */
  class PlayingSlot {
    var current: Sound?

    constructor ()
      ensures current == null
    {
      current := null;
    }
  }

  /** AudioProvider: the context's `currentAudio` state. */
  class AudioProvider {
    var currentAudio: Sound?

    constructor ()
      ensures currentAudio == null
    {
      currentAudio := null;
    }

    /** playAudio: a different current instance is stopped, then the new one becomes
        current. Passing the current instance again, or having none, stops nothing. */
    method PlayAudio(audioInstance: Sound?)
      modifies this, currentAudio
      ensures currentAudio == audioInstance
      ensures old(currentAudio) != null && old(currentAudio) != audioInstance ==> old(currentAudio).stopped
      ensures old(currentAudio) != null && old(currentAudio) == audioInstance ==> unchanged(audioInstance)
    {
      if currentAudio != null && currentAudio != audioInstance {
        currentAudio.Stop();
      }
      currentAudio := audioInstance;
    }
  }
}
