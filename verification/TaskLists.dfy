/** Task lists and the key under which the matching client's caches file what they know about one. */
module TaskLists {

  datatype Kind = Normal | Sticky

  datatype TaskList = TaskList(name: string, kind: Kind)

  datatype Key = Key(domainId: string, taskListName: string, taskListType: int)
}
