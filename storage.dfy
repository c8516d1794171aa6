/** The browser's localStorage, reduced to the two keys the application uses. One
    object is shared by every component that reads or writes a key. */
module Storage {
  import opened Wrappers
  import opened Cards

  class LocalStorage {
    /** The entry "bookmarkedCards" (None: no entry). */
    var bookmarkedCards: Option<seq<Card>>
    /** The entry "token" (None: no entry). */
    var token: Option<string>

    constructor (bookmarkedCards: Option<seq<Card>>, token: Option<string>)
      ensures this.bookmarkedCards == bookmarkedCards && this.token == token
    {
      this.bookmarkedCards := bookmarkedCards;
      this.token := token;
    }
  }
}
