/** `DatabaseInitService`: opens the store once at start-up, evicting stale
    cache rows as it does, and closes it on the way out. */
module DatabaseStartup {
  import opened Types
  import opened EventTable
  import opened SQLiteStore
  import opened DatabaseFacade

  class DatabaseInitService {
    var isInitialized: bool
    /** The facade whose `clearOldCache` runs at start-up; it shares the store. */
    const service: DatabaseService

    constructor (service: DatabaseService)
      ensures this.service == service && !isInitialized
    {
      this.service := service;
      isInitialized := false;
    }

    /** The service never claims a database it has not opened. */
    predicate Valid()
      reads this, service.store
    {
      isInitialized ==> service.store.isOpen
    }

    /** `initializeDatabase`: nothing to do once initialized. Otherwise open the
        store (its outcome is given) and, if that worked, clear the old cache
        at `now` and remember success; a failed open is rethrown and leaves the
        service uninitialized. */
    method InitializeDatabase(openResult: Outcome, now: int) returns (r: Outcome)
      requires Valid()
      modifies this, service.store
      ensures Valid()
      ensures old(isInitialized) ==>
        (r == Done && isInitialized &&
         service.store.isOpen == old(service.store.isOpen) && service.store.events == old(service.store.events))
      ensures !old(isInitialized) && openResult.Failed? ==>
        (r == openResult && !isInitialized &&
         service.store.isOpen == old(service.store.isOpen) && service.store.events == old(service.store.events))
      ensures !old(isInitialized) && openResult.Done? ==>
        (r == Done && isInitialized &&
         service.store.isOpen && service.store.events == Evict(old(service.store.events), now))
    {
      if isInitialized {
        return Done;
      }
      var openOutcome := service.store.InitDatabase(openResult);
      if openOutcome.Failed? {
        return openOutcome;
      }
      service.ClearOldCache(now);
      isInitialized := true;
      return Done;
    }

    /** `closeDatabase`: close the store (its outcome is given); a failure is
        logged and the service stays as it was. */
    method CloseDatabase(closeResult: Outcome)
      requires Valid()
      modifies this, service.store
      ensures Valid()
      ensures service.store.events == old(service.store.events)
      ensures !old(service.store.isOpen) ==> !isInitialized && !service.store.isOpen
      ensures old(service.store.isOpen) && closeResult.Done? ==> !isInitialized && !service.store.isOpen
      ensures old(service.store.isOpen) && closeResult.Failed? ==>
        (isInitialized == old(isInitialized) && service.store.isOpen)
    {
      var closed := service.store.CloseDatabase(closeResult);
      if closed.Failed? {
        return;
      }
      isInitialized := false;
    }
  }
}
