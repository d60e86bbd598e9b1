/** The permissions a membership can grant in its site. */
module Permissions {

  datatype Permission = ViewOverview | ViewFirmware | ViewDataAnalysis | ManageFirmware | PerformOperations | ManageDevices

  const PERMISSIONS := {ViewOverview, ViewFirmware, ViewDataAnalysis, ManageFirmware, PerformOperations, ManageDevices}
}
