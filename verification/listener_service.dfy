/** MediaNotificationListenerService: a process-wide static instance set by
    onCreate and cleared by onDestroy, and its session query. */
module ListenerService {
  import opened Wrappers
  import opened Sessions

  /** One service object; `hasManager` is false when getSystemService
      returned no MediaSessionManager. */
  datatype Service = Service(hasManager: bool)

  /** The static `instance` field. */
  datatype Slot = Slot(instance: Option<Service>)

  /** isServiceEnabled: the static instance is set. */
  function IsServiceEnabled(slot: Slot): bool {
    slot.instance.Some?
  }

  /** getInstance: the static instance itself, null when unset. */
  function GetInstance(slot: Slot): (r: Option<Service>)
    ensures r.Some? <==> IsServiceEnabled(slot)
  {
    slot.instance
  }

  /** onCreate stores the new service, which then reports enabled. */
  function OnCreate(slot: Slot, created: Service): (r: Slot)
    ensures IsServiceEnabled(r)
    ensures GetInstance(r) == Some(created)
  {
    Slot(Some(created))
  }

  /** onDestroy clears the static field whichever service is destroyed,
      so the service then reports disabled. */
  function OnDestroy(slot: Slot, destroyed: Service): (r: Slot)
    ensures !IsServiceEnabled(r)
    ensures GetInstance(r).None?
  {
    Slot(None)
  }

  /** getActiveMediaSessions: the unscoped registry answer unchanged; null,
      not an empty list, when there is no manager or the query is denied. */
  function GetActiveMediaSessions(svc: Service, registry: Registry): (r: Option<seq<Controller>>)
    ensures r.None? <==> !svc.hasManager || registry.unscoped.Failure?
    ensures r.Some? ==> r.value == registry.unscoped.value
  {
    if svc.hasManager then registry.unscoped.ToOption() else None
  }

  /** onDestroy of an older service clears a newer one's registration too. */
  lemma DestroyOfStaleServiceDisables(a: Service, b: Service)
    ensures !IsServiceEnabled(OnDestroy(OnCreate(OnCreate(Slot(None), a), b), a))
  {
  }
}
