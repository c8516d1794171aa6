/** The router's current location, which `navigate(path)` replaces. */
module Navigation {
  /** The login route, target of logout, of a rejected token and of a registration. */
  const LoginPath: string := "/login"

  class Router {
    var location: string

    constructor (location: string)
      ensures this.location == location
    {
      this.location := location;
    }

    method Navigate(path: string)
      modifies this
      ensures location == path
    {
      location := path;
    }
  }
}
