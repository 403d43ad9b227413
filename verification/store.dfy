/** The database as one immutable value: the six tables the routes use. */
module Store {
  import Users
  import Preferences
  import Notifications
  import Categories
  import TrackedItems
  import InflationData

  datatype Db = Db(
    users: Users.Table,
    preferences: Preferences.Table,
    notifications: Notifications.Table,
    categories: Categories.Table,
    items: TrackedItems.Table,
    observations: InflationData.Table)

  /** Every table's keys and uniqueness constraints hold. */
  ghost predicate Valid(db: Db)
  {
    && Users.Valid(db.users)
    && Preferences.Valid(db.preferences)
    && Notifications.Valid(db.notifications)
    && Categories.Valid(db.categories)
    && TrackedItems.Valid(db.items)
    && InflationData.Valid(db.observations)
  }
}
