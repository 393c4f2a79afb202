/** Converting a category to its transfer form, as recipes list theirs. */
module CategoryMapper {
  import opened Entities
  import opened Dto

  /** `toDto`: every field copied. */
  function ToDto(category: Category): (dto: CategoryDto)
    reads category
  {
    CategoryDto(category.id, category.name, category.description, category.photoUrl)
  }
}
