/** The ReviewCard component's audio state: whether the card has an audio file (found
    by a HEAD request whose outcome is an input), whether it is playing, its own Howl
    instance, and the global slot naming the instance that is playing anywhere. */
module ReviewCardComponent {
  import opened Wrappers
  import opened Cards
  import opened Audio
  import opened AudioRegistry

  class ReviewCard {
    const publicUrl: string
    const card: Card
    /** `currentPlayingAudio`, shared by every review card. */
    const slot: PlayingSlot
    var isPlaying: bool
    /** None until the availability check has answered (the initial `null`). */
    var hasAudio: Option<bool>
    /** `audioRef.current` */
    var audioRef: Sound?

    constructor (publicUrl: string, card: Card, slot: PlayingSlot)
      ensures this.publicUrl == publicUrl && this.card == card && this.slot == slot
      ensures !isPlaying && hasAudio == None && audioRef == null
    {
      this.publicUrl := publicUrl;
      this.card := card;
      this.slot := slot;
      isPlaying := false;
      hasAudio := None;
      audioRef := null;
    }

    function AudioPath(): Option<string> {
      ConstructAudioPath(publicUrl, Some(card))
    }

    /** checkAudioAvailability; `headReply` is the HEAD request's `response.ok`, or None
        when the request failed. A card without an audio path has no audio. */
    method CheckAudioAvailability(headReply: Option<bool>)
      modifies this
      ensures hasAudio == Some(AudioPath().Some? && headReply == Some(true))
      ensures AudioPath().None? ==> hasAudio == Some(false)
      ensures isPlaying == old(isPlaying) && audioRef == old(audioRef)
    {
      var audioPath := ConstructAudioPath(publicUrl, Some(card));
      if audioPath.Some? {
        match headReply
        case Some(ok) => hasAudio := Some(ok);
        case None => hasAudio := Some(false);
      } else {
        hasAudio := Some(false);
      }
    }

    /** playAudio. Without audio nothing happens. Otherwise another card's instance that
        is current is stopped and the global cleared first; then, unless this card is
        already playing, a new instance for the path is created and asked to play. */
    method PlayAudio()
      modifies this, slot, slot.current
      ensures isPlaying == old(isPlaying) && hasAudio == old(hasAudio)
      ensures old(hasAudio) != Some(true) || AudioPath().None? ==>
        && audioRef == old(audioRef) && slot.current == old(slot.current)
        && (old(slot.current) != null ==> unchanged(old(slot.current)))
      ensures old(hasAudio) == Some(true) && AudioPath().Some? ==>
        && (old(slot.current) != null && old(slot.current) != old(audioRef) ==>
              old(slot.current).stopped && slot.current == null)
        && (old(slot.current) == null || old(slot.current) == old(audioRef) ==>
              slot.current == old(slot.current) && (old(slot.current) != null ==> unchanged(old(slot.current))))
        && (old(isPlaying) ==> audioRef == old(audioRef))
        && (!old(isPlaying) ==> fresh(audioRef) && audioRef.src == AudioPath().value && !audioRef.stopped)
    {
      if hasAudio != Some(true) {
        return;
      }
      var audioPath := ConstructAudioPath(publicUrl, Some(card));
      if audioPath.None? {
        return;
      }
      if slot.current != null && slot.current != audioRef {
        slot.current.Stop();
        slot.current := null;
      }
      if isPlaying {
        return;
      }
      audioRef := new Sound(audioPath.value);
    }

    /** The `onplay` callback: this card is playing and its instance is the current one. */
    method OnPlay()
      modifies this, slot
      ensures isPlaying && slot.current == audioRef
      ensures hasAudio == old(hasAudio) && audioRef == old(audioRef)
    {
      isPlaying := true;
      slot.current := audioRef;
    }

    /** The `onend` callback. */
    method OnEnd()
      modifies this, slot
      ensures !isPlaying && slot.current == null
      ensures hasAudio == old(hasAudio) && audioRef == old(audioRef)
    {
      isPlaying := false;
      slot.current := null;
    }

    /** The `onstop` callback: the global is cleared only if it names this card's instance. */
    method OnStop()
      modifies this, slot
      ensures !isPlaying
      ensures slot.current == (if old(slot.current) == audioRef then null else old(slot.current))
      ensures hasAudio == old(hasAudio) && audioRef == old(audioRef)
    {
      isPlaying := false;
      if slot.current == audioRef {
        slot.current := null;
      }
    }

    /** stopAudio: only a playing instance is told to stop. */
    method StopAudio()
      modifies audioRef
      ensures audioRef != null && isPlaying ==> audioRef.stopped
      ensures !(audioRef != null && isPlaying) && audioRef != null ==> unchanged(audioRef)
    {
      if audioRef != null && isPlaying {
        audioRef.Stop();
      }
    }

    /** handleAudioToggle: stop while playing, otherwise play. The flags are left to the
        instance's callbacks. */
    method HandleAudioToggle()
      modifies this, slot, slot.current, audioRef
      ensures isPlaying == old(isPlaying) && hasAudio == old(hasAudio)
      ensures old(isPlaying) ==>
        && audioRef == old(audioRef) && slot.current == old(slot.current)
        && (old(audioRef) != null ==> old(audioRef).stopped)
        && (old(slot.current) != null && old(slot.current) != old(audioRef) ==> unchanged(old(slot.current)))
      ensures !old(isPlaying) && (old(hasAudio) != Some(true) || AudioPath().None?) ==>
        && audioRef == old(audioRef) && slot.current == old(slot.current)
        && (old(slot.current) != null ==> unchanged(old(slot.current)))
      ensures !old(isPlaying) && old(hasAudio) == Some(true) && AudioPath().Some? ==>
        && (old(slot.current) != null && old(slot.current) != old(audioRef) ==>
              old(slot.current).stopped && slot.current == null)
        && (old(slot.current) == null || old(slot.current) == old(audioRef) ==>
              slot.current == old(slot.current) && (old(slot.current) != null ==> unchanged(old(slot.current))))
        && fresh(audioRef) && audioRef.src == AudioPath().value && !audioRef.stopped
    {
      if isPlaying {
        StopAudio();
      } else {
        PlayAudio();
      }
    }
  }
}
